/** Token expiry: from the `--expires` argument to the accept decision.

    A deadline is written as text when the token is issued and parsed each time the
    token is used. A text that does not parse counts as expired. The parser here is
    the POSIX branch, `strptime` with "%Y-%m-%dT%H:%M:%SZ": it reads at most four
    digits of year and does not look at what follows the 'Z'. */
module Expiry {
  import opened Options
  import opened Calendar
  import opened Decimals
  import opened Division

  // ---- Text of a broken-down time ------------------------------------------

  /** "%Y": no padding, and a sign before the year 0. */
  function YearText(y: int): string {
    if y < 0 then "-" + Decimal(-y) else Decimal(y)
  }

  function TwoDigits(v: int): (s: string)
    requires 0 <= v <= 99
    ensures |s| == 2
  {
    [DigitOf(v / 10), DigitOf(v % 10)]
  }

  /** "%Y-%m-%dT%H:%M:%SZ" */
  function Format(tm: Tm): string
    requires Valid(tm)
  {
    YearText(tm.year) + ("-" + (TwoDigits(tm.month) + ("-" + (TwoDigits(tm.day) + ("T"
      + (TwoDigits(tm.hour) + (":" + (TwoDigits(tm.minute) + (":" + (TwoDigits(tm.second) + "Z"))))))))))
  }

  // ---- The parser ----------------------------------------------------------

  datatype Read<T> = Fail | Read(value: T, rest: string)

  /** Leading blanks, then digits as long as there are fewer than `width` of them and
      one more could still keep the number within `max`. */
  function ReadDigits(s: string, width: nat, max: int, sofar: int): (r: Read<int>)
    requires max >= 0
    ensures r.Read?
  {
    if width > 0 && s != "" && Digit(s[0]) && sofar * 10 <= max then
      ReadDigits(s[1..], width - 1, max, sofar * 10 + Value(s[0]))
    else Read(sofar, s)
  }

  function SkipSpaces(s: string): string {
    if s != "" && s[0] == ' ' then SkipSpaces(s[1..]) else s
  }

  function ReadNumber(s: string, min: int, max: int, width: nat): (r: Read<int>)
    requires max >= 0
    ensures r.Read? ==> min <= r.value <= max
  {
    var t := SkipSpaces(s);
    if t == "" || !Digit(t[0]) then Fail
    else
      var r := ReadDigits(t, width, max, 0);
      if min <= r.value <= max then r else Fail
  }

  function ReadLiteral(s: string, c: char): Read<()> {
    if s != "" && s[0] == c then Read((), s[1..]) else Fail
  }

  /** A number followed by a separator. */
  function ReadField(s: string, min: int, max: int, width: nat, c: char): (r: Read<int>)
    requires max >= 0
    ensures r.Read? ==> min <= r.value <= max
  {
    match ReadNumber(s, min, max, width)
    case Fail => Fail
    case Read(v, rest) =>
      match ReadLiteral(rest, c)
      case Fail => Fail
      case Read(_, more) => Read(v, more)
  }

  /** `strptime`: seconds may be 60 or 61, the day is not checked against the month. */
  function Parse(s: string): (r: Option<Tm>)
    ensures r.Some? ==> 1 <= r.value.month <= 12
  {
    match ReadField(s, 0, 9999, 4, '-') case Fail => None case Read(year, s1) =>
    match ReadField(s1, 1, 12, 2, '-') case Fail => None case Read(month, s2) =>
    match ReadField(s2, 1, 31, 2, 'T') case Fail => None case Read(day, s3) =>
    match ReadField(s3, 0, 23, 2, ':') case Fail => None case Read(hour, s4) =>
    match ReadField(s4, 0, 59, 2, ':') case Fail => None case Read(minute, s5) =>
    match ReadField(s5, 0, 61, 2, 'Z') case Fail => None case Read(second, _) =>
    Some(Tm(year, month, day, hour, minute, second))
  }

  // ---- The round trip ------------------------------------------------------

  lemma ReadTwo(v: int, min: int, max: int, c: char, rest: string)
    requires 0 <= min <= v <= max <= 99 && 10 <= max && !Digit(c)
    ensures ReadField(TwoDigits(v) + ([c] + rest), min, max, 2, c) == Read(v, rest)
  {
    var s := TwoDigits(v) + ([c] + rest);
    assert s[0] == DigitOf(v / 10) && s[1..] == [DigitOf(v % 10)] + ([c] + rest);
    assert s[1..][1..] == [c] + rest;
    assert ReadDigits(s, 2, max, 0) == ReadDigits(s[1..], 1, max, v / 10);
    assert ReadDigits(s[1..], 1, max, v / 10) == ReadDigits([c] + rest, 0, max, v);
    assert ([c] + rest)[1..] == rest;
  }

  lemma ReadOneMore(d: int, more: string, width: nat, sofar: int)
    requires 0 <= d <= 9 && width > 0 && 0 <= sofar <= 999
    ensures ReadDigits([DigitOf(d)] + more, width, 9999, sofar)
         == ReadDigits(more, width - 1, 9999, sofar * 10 + d)
  {
    assert ([DigitOf(d)] + more)[1..] == more;
  }

  lemma ReadStop(rest: string, width: nat, sofar: int)
    ensures ReadDigits("-" + rest, width, 9999, sofar) == Read(sofar, "-" + rest)
  {
  }

  lemma DecimalSplit(n: nat, more: string)
    requires n >= 10
    ensures Decimal(n) + more == Decimal(n / 10) + ([DigitOf(n % 10)] + more)
  {
  }

  lemma {:induction false} DecimalLength(n: nat, k: nat)
    requires k == 0 || n >= 10
    requires k <= 1 || n >= 100
    requires k <= 2 || n >= 1000
    requires k <= 3 || n >= 10000
    requires k <= 4
    ensures |Decimal(n)| > k
  {
    if k > 0 { DecimalLength(n / 10, k - 1); }
  }

  lemma ReadYearBelow100(y: nat, tail: string)
    requires y < 100
    ensures ReadDigits(Decimal(y) + tail, 4, 9999, 0) == ReadDigits(tail, if y < 10 then 3 else 2, 9999, y)
  {
    if y < 10 {
      ReadOneMore(y, tail, 4, 0);
    } else {
      DecimalSplit(y, tail);
      ReadOneMore(y / 10, [DigitOf(y % 10)] + tail, 4, 0);
      ReadOneMore(y % 10, tail, 3, y / 10);
    }
  }

  lemma ReadYearBelow10000(y: nat, tail: string)
    requires 100 <= y <= 9999
    ensures ReadDigits(Decimal(y) + tail, 4, 9999, 0) == ReadDigits(tail, if y < 1000 then 1 else 0, 9999, y)
  {
    var t1 := [DigitOf(y % 10)] + tail;
    var t2 := [DigitOf(y / 10 % 10)] + t1;
    DecimalSplit(y, tail);
    DecimalSplit(y / 10, t1);
    ReadYearBelow100(y / 100, t2);
    assert y / 10 / 10 == y / 100;
    ReadOneMore(y / 10 % 10, t1, if y < 1000 then 3 else 2, y / 100);
    ReadOneMore(y % 10, tail, if y < 1000 then 2 else 1, y / 10);
  }

  /** A year of up to four digits is read whole. */
  lemma ReadShortYear(y: nat, rest: string)
    requires y <= 9999
    ensures ReadDigits(Decimal(y) + ("-" + rest), 4, 9999, 0) == Read(y, "-" + rest)
  {
    if y < 100 { ReadYearBelow100(y, "-" + rest); } else { ReadYearBelow10000(y, "-" + rest); }
    ReadStop(rest, if y < 10 then 3 else if y < 100 then 2 else if y < 1000 then 1 else 0, y);
  }

  lemma ReadOneChar(s: string, i: nat, width: nat, sofar: int)
    requires i < |s| && Digit(s[i]) && width > 0 && 0 <= sofar <= 999
    ensures ReadDigits(s[i..], width, 9999, sofar)
         == ReadDigits(s[i + 1..], width - 1, 9999, sofar * 10 + Value(s[i]))
  {
    assert s[i..][1..] == s[i + 1..];
  }

  /** Four digits are read at most, so the rest of a longer year is left over. */
  lemma ReadAtMostFour(s: string)
    requires |s| > 4 && forall i | 0 <= i < 4 :: Digit(s[i])
    ensures ReadDigits(s, 4, 9999, 0).rest == s[4..]
  {
    var v1 := Value(s[0]);
    var v2 := v1 * 10 + Value(s[1]);
    var v3 := v2 * 10 + Value(s[2]);
    assert s[0..] == s;
    ReadOneChar(s, 0, 4, 0);
    ReadOneChar(s, 1, 3, v1);
    ReadOneChar(s, 2, 2, v2);
    ReadOneChar(s, 3, 1, v3);
  }

  /** The year field is read back exactly if it is in the four-digit range. */
  lemma ReadYear(y: int, rest: string)
    ensures ReadField(YearText(y) + ("-" + rest), 0, 9999, 4, '-')
         == if 0 <= y <= 9999 then Read(y, rest) else Fail
  {
    var s := YearText(y) + ("-" + rest);
    if y < 0 {
      assert s[0] == '-';
    } else if y <= 9999 {
      assert s[0] == Decimal(y)[0] && SkipSpaces(s) == s;
      ReadShortYear(y, rest);
      assert ("-" + rest)[1..] == rest;
    } else {
      DecimalLength(y, 4);
      assert forall i | 0 <= i <= 4 :: s[i] == Decimal(y)[i];
      assert SkipSpaces(s) == s;
      ReadAtMostFour(s);
      assert s[4..][0] == s[4];
    }
  }

  /** Formatting and parsing a valid time gives it back exactly in the years 0 to 9999;
      outside them the text does not parse. */
  lemma ParseFormat(tm: Tm)
    requires Valid(tm)
    ensures Parse(Format(tm)) == if 0 <= tm.year <= 9999 then Some(tm) else None
  {
    var s5 := TwoDigits(tm.second) + "Z";
    var s4 := TwoDigits(tm.minute) + (":" + s5);
    var s3 := TwoDigits(tm.hour) + (":" + s4);
    var s2 := TwoDigits(tm.day) + ("T" + s3);
    var s1 := TwoDigits(tm.month) + ("-" + s2);
    ReadYear(tm.year, s1);
    ReadTwo(tm.month, 1, 12, '-', s2);
    ReadTwo(tm.day, 1, 31, 'T', s3);
    ReadTwo(tm.hour, 0, 23, ':', s4);
    ReadTwo(tm.minute, 0, 59, ':', s5);
    ReadTwo(tm.second, 0, 61, 'Z', "");
    assert "Z" == ['Z'] + "";
  }

  // ---- The accept decision -------------------------------------------------

  predicate IsExpired(expiresAt: string, now: int) {
    if expiresAt == "" then false
    else match Parse(expiresAt)
      case None => true
      case Some(tm) => now >= SecondsOf(tm)
  }

  /** The text of a deadline at second `t`. */
  function Stamp(t: int): string {
    Format(Broken(t))
  }

  /** A token that carries this text is accepted at exactly the seconds before `t`. */
  ghost predicate ExpiresExactlyAt(text: string, t: int) {
    forall now: int :: IsExpired(text, now) <==> now >= t
  }

  /** A deadline from the Epoch to the end of 9999 is kept to the second. */
  lemma StampedDeadline(t: int)
    requires 0 <= t <= LAST
    ensures ExpiresExactlyAt(Stamp(t), t)
  {
    YearRange(t);
    ParseFormat(Broken(t));
  }

  /** One beyond it, or before the year 0, makes a token that is never accepted. */
  lemma UnreadableDeadline(t: int, now: int)
    requires !(0 <= Broken(t).year <= 9999)
    ensures IsExpired(Stamp(t), now)
  {
    ParseFormat(Broken(t));
  }

  lemma StampExact(t: int, deadline: int)
    requires deadline >= 0
    ensures ExpiresExactlyAt(Stamp(t), deadline) <==> t == deadline <= LAST
  {
    ParseFormat(Broken(t));
    if t == deadline <= LAST { StampedDeadline(t); }
    if ExpiresExactlyAt(Stamp(t), deadline) {
      assert !IsExpired(Stamp(t), deadline - 1) && IsExpired(Stamp(t), deadline);
      assert 0 <= Broken(t).year <= 9999 && t == deadline;
      YearRange(t);
    }
  }

  // ---- The --expires argument ----------------------------------------------

  const LONG_MAX := 0x7fff_ffff_ffff_ffff

  function Wrap64(x: int): (r: int)
    ensures -LONG_MAX - 1 <= r <= LONG_MAX
  {
    (x + LONG_MAX + 1) % 0x1_0000_0000_0000_0000 - LONG_MAX - 1
  }

  function UnitSeconds(c: char): int {
    if c == 's' then 1 else if c == 'm' then 60 else if c == 'h' then 3600 else if c == 'd' then 86400 else 0
  }

  predicate Relative(s: string) {
    && |s| >= 2
    && UnitSeconds(s[|s| - 1]) > 0
    && forall i | 0 <= i < |s| - 1 :: Digit(s[i])
  }

  predicate Shape(s: string, shape: string) {
    |s| == |shape| && forall i | 0 <= i < |s| :: if shape[i] == '0' then Digit(s[i]) else s[i] == shape[i]
  }

  /** n times its unit. */
  function ExactSeconds(s: string): int
    requires Relative(s)
  {
    Number(s[..|s| - 1]) * UnitSeconds(s[|s| - 1])
  }

  /** `std::stol` and the checked multiplication: the exact number of seconds, or
      nothing if either does not fit a long. */
  function RelativeSeconds(s: string): (r: Option<int>)
    requires Relative(s)
    ensures r == if ExactSeconds(s) <= LONG_MAX then Some(ExactSeconds(s)) else None
  {
    var n, unit := Number(s[..|s| - 1]), UnitSeconds(s[|s| - 1]);
    if n > LONG_MAX then
      None
    else if unit == 1 then Some(n)
    else
      OverflowCheck(n, unit);
      if n > LONG_MAX / unit then None else Some(n * unit)
  }

  lemma OverflowCheck(n: nat, unit: int)
    requires unit > 0
    ensures n > LONG_MAX / unit <==> n * unit > LONG_MAX
  {
    var q, r := LONG_MAX / unit, LONG_MAX % unit;
    assert LONG_MAX == unit * q + r;
    if n > q {
      assert n * unit >= (q + 1) * unit;
    } else {
      assert n * unit <= q * unit;
    }
  }

  /** `now` in clock ticks since the Epoch, `rate` ticks a second (10^9 in libstdc++,
      10^6 in libc++). */
  function Resolve(s: string, now: int, rate: int): Option<string>
    requires rate > 0
  {
    if s == "" then Some("")
    else if Relative(s) then
      match RelativeSeconds(s)
      case None => None
      case Some(seconds) => Some(Stamp(Deadline(now, seconds, rate)))
    else if Shape(s, "0000-00-00") then Some(s + "T00:00:00Z")
    else if Shape(s, "0000-00-00T00:00:00Z") then Some(s)
    else None
  }

  /** `to_time_t(now + seconds)`, with the conversion and the sum in 64-bit ticks. */
  function Deadline(now: int, seconds: int, rate: int): int
    requires rate > 0
  {
    ToSeconds(Wrap64(now + Wrap64(seconds * rate)), rate)
  }

  /** `to_time_t` truncates towards zero. */
  function ToSeconds(ticks: int, rate: int): int
    requires rate > 0
  {
    if ticks >= 0 then ticks / rate else -(-ticks / rate)
  }

  lemma WrapOnce(x: int, y: int)
    ensures Wrap64(x + Wrap64(y)) == Wrap64(x + y)
  {
    var m := 0x1_0000_0000_0000_0000;
    var a, b := y + LONG_MAX + 1, x + y + LONG_MAX + 1;
    var c := x + Wrap64(y) + LONG_MAX + 1;
    assert a == m * (a / m) + a % m && b == m * (b / m) + b % m;
    assert c == b - m * (a / m);
    Quotient(c, m, b / m - a / m, b % m);
  }

  lemma WrapAmount(x: int)
    requires x > LONG_MAX
    ensures Wrap64(x) <= x - 0x1_0000_0000_0000_0000
  {
    var m := 0x1_0000_0000_0000_0000;
    var k := (x + LONG_MAX + 1) / m;
    assert x + LONG_MAX + 1 == m * k + (x + LONG_MAX + 1) % m;
    AtLeast(m, k);
  }

  lemma DivideAtLeast(b: int, rate: int, k: int)
    requires rate > 0 && b >= rate * k
    ensures b / rate >= k
  {
    var q := b / rate;
    assert b == rate * q + b % rate;
    if q < k { AtLeast(rate, k - q); }
  }

  lemma DivideOrdered(a: int, b: int, rate: int)
    requires 0 <= a && a + rate <= b && rate > 0
    ensures a / rate < b / rate
  {
    var p := a / rate;
    assert a == rate * p + a % rate;
    assert rate * (p + 1) == rate * p + rate;
    DivideAtLeast(b, rate, p + 1);
  }

  /** Ticks that wrapped around name an earlier second than the exact ones. */
  lemma WrappedIsEarlier(exact: int, rate: int)
    requires exact > LONG_MAX && 0 < rate <= 1_000_000_000
    ensures ToSeconds(Wrap64(exact), rate) < exact / rate
  {
    var ticks := Wrap64(exact);
    WrapAmount(exact);
    if ticks >= 0 {
      DivideOrdered(ticks, exact, rate);
    } else {
      DivideOrdered(0, exact, rate);
      DivideAtLeast(-ticks, rate, 0);
    }
  }

  /** Where the deadline lands on the seconds line, overflow included. */
  lemma WrappedSecond(now: int, seconds: int, rate: int)
    requires 0 <= now && 0 <= seconds && 0 < rate <= 1_000_000_000
    ensures Deadline(now, seconds, rate) == now / rate + seconds
       <==> now + seconds * rate <= LONG_MAX
  {
    NonNegative(seconds, rate);
    WrapOnce(now, seconds * rate);
    WholeSeconds(now, seconds, rate);
    WrappedExactly(now + seconds * rate, rate);
  }

  lemma WrappedExactly(exact: int, rate: int)
    requires 0 <= exact && 0 < rate <= 1_000_000_000
    ensures ToSeconds(Wrap64(exact), rate) == exact / rate <==> exact <= LONG_MAX
  {
    if exact > LONG_MAX { WrappedIsEarlier(exact, rate); }
  }

  lemma WholeSeconds(now: int, seconds: int, rate: int)
    requires rate > 0
    ensures (now + seconds * rate) / rate == now / rate + seconds
  {
    assert now == rate * (now / rate) + now % rate;
    assert rate * (now / rate + seconds) == rate * (now / rate) + seconds * rate;
    Quotient(now + seconds * rate, rate, now / rate + seconds, now % rate);
  }

  lemma NonNegative(a: int, b: int)
    requires a >= 0 && b >= 0
    ensures a * b >= 0
  {
  }

  lemma RelativeStamp(s: string, now: int, rate: int)
    requires Relative(s) && rate > 0
    ensures match RelativeSeconds(s)
            case None => Resolve(s, now, rate) == None
            case Some(seconds) => Resolve(s, now, rate) == Some(Stamp(Deadline(now, seconds, rate)))
  {
  }

  /** The deadline fits the clock's ticks and the four-digit years. */
  predicate InRange(now: int, seconds: int, rate: int)
    requires rate > 0
  {
    now + seconds * rate <= LONG_MAX && now / rate + seconds <= LAST
  }

  lemma StampedRelative(now: int, seconds: int, rate: int)
    requires 0 <= now && 0 <= seconds && 0 < rate <= 1_000_000_000
    ensures ExpiresExactlyAt(Stamp(Deadline(now, seconds, rate)), now / rate + seconds)
       <==> InRange(now, seconds, rate)
  {
    DivideAtLeast(now, rate, 0);
    WrappedSecond(now, seconds, rate);
    StampExact(Deadline(now, seconds, rate), now / rate + seconds);
  }

  /** A relative expiry is refused exactly if it does not fit a long number of
      seconds. Otherwise a deadline is stamped, and the token expires exactly that many
      seconds from now if and only if the sum fits the clock's 64-bit ticks and does
      not lie beyond the year 9999. With libstdc++'s nanosecond clock the first
      condition fails for anything past April 2262. */
  lemma RelativeExpiry(s: string, now: int, rate: int)
    requires Relative(s) && 0 <= now && 0 < rate <= 1_000_000_000
    ensures Resolve(s, now, rate).Some? <==> ExactSeconds(s) <= LONG_MAX
    ensures Resolve(s, now, rate).Some? ==>
              (ExpiresExactlyAt(Resolve(s, now, rate).value, now / rate + ExactSeconds(s))
               <==> InRange(now, ExactSeconds(s), rate))
  {
    NonNegative(Number(s[..|s| - 1]), UnitSeconds(s[|s| - 1]));
    RelativeStamp(s, now, rate);
    if ExactSeconds(s) <= LONG_MAX { StampedRelative(now, ExactSeconds(s), rate); }
  }

  // ---- What an argument means ----------------------------------------------

  /** The text of `n` in a unit of so many seconds. */
  predicate Duration(s: string, n: nat, factor: nat) {
    && |s| >= 2 && (forall i | 0 <= i < |s| - 1 :: Digit(s[i])) && Number(s[..|s| - 1]) == n
    && (match s[|s| - 1] case 's' => factor == 1 case 'm' => factor == 60 case 'h' => factor == 3600 case 'd' => factor == 86400
        case _ => false)
  }

  /** Relative are exactly the texts of a number in seconds, minutes, hours or days, and
      each is worth that many seconds, or refused when they do not fit a long. */
  lemma DurationsAreRead(s: string)
    ensures Relative(s) <==> exists n: nat, factor: nat :: Duration(s, n, factor)
    ensures forall n: nat, factor: nat | Duration(s, n, factor) ::
              ExactSeconds(s) == n * factor && RelativeSeconds(s) == if n * factor <= LONG_MAX then Some(n * factor) else None
  {
    if Relative(s) {
      var c := s[|s| - 1];
      assert Duration(s, Number(s[..|s| - 1]), if c == 's' then 1 else if c == 'm' then 60 else if c == 'h' then 3600 else 86400);
    }
  }

  /** Spelled out for each unit. */
  lemma UnitsAreWorth(t: string)
    requires t != "" && forall i | 0 <= i < |t| :: Digit(t[i])
    ensures Relative(t + "s") && Relative(t + "m") && Relative(t + "h") && Relative(t + "d")
    ensures var n := Number(t);
            && RelativeSeconds(t + "s") == (if n <= LONG_MAX then Some(n) else None)
            && RelativeSeconds(t + "m") == (if 60 * n <= LONG_MAX then Some(60 * n) else None)
            && RelativeSeconds(t + "h") == (if 3600 * n <= LONG_MAX then Some(3600 * n) else None)
            && RelativeSeconds(t + "d") == (if 86400 * n <= LONG_MAX then Some(86400 * n) else None)
  {
    UnitIsWorth(t, "s", 's', 1);
    UnitIsWorth(t, "m", 'm', 60);
    UnitIsWorth(t, "h", 'h', 3600);
    UnitIsWorth(t, "d", 'd', 86400);
  }

  lemma UnitIsWorth(t: string, unit: string, c: char, factor: nat)
    requires t != "" && (forall i | 0 <= i < |t| :: Digit(t[i])) && unit == [c]
    requires match c case 's' => factor == 1 case 'm' => factor == 60 case 'h' => factor == 3600 case 'd' => factor == 86400 case _ => false
    ensures Relative(t + unit)
    ensures RelativeSeconds(t + unit) == if factor * Number(t) <= LONG_MAX then Some(factor * Number(t)) else None
  {
    var s := t + unit;
    assert s[..|s| - 1] == t && s[|s| - 1] == c;
    assert Duration(s, Number(t), factor);
    DurationsAreRead(s);
  }

  /** What `--expires` takes: nothing, a duration that fits, a date, or a date and time. */
  lemma ResolvedExactlyWhen(s: string, now: int, rate: int)
    requires rate > 0
    ensures Resolve(s, now, rate).Some?
       <==> s == "" || (exists n: nat, factor: nat :: Duration(s, n, factor) && n * factor <= LONG_MAX)
            || Shape(s, "0000-00-00") || Shape(s, "0000-00-00T00:00:00Z")
    ensures s == "" ==> Resolve(s, now, rate) == Some("")
  {
    DurationsAreRead(s);
    if s != "" && Relative(s) { NotADate(s); }
  }

  /** No duration has the shape of a date or of a time. */
  lemma NotADate(s: string)
    requires Relative(s)
    ensures !Shape(s, "0000-00-00") && !Shape(s, "0000-00-00T00:00:00Z")
  {
    var date, time := "0000-00-00", "0000-00-00T00:00:00Z";
    assert |s| > 5 ==> Digit(s[4]);
    assert date[4] == '-' && time[4] == '-' && !Digit('-');
  }

  /** The overflow is not theoretical: with nanosecond ticks, 300000 days from the
      Epoch are accepted as an argument and stamped with some other second. */
  lemma TickOverflow()
    ensures Resolve("300000d", 0, 1_000_000_000).Some?
    ensures !ExpiresExactlyAt(Resolve("300000d", 0, 1_000_000_000).value, 300000 * 86400)
  {
    NumberOf300000();
    RelativeExpiry("300000d", 0, 1_000_000_000);
  }

  lemma NumberOf300000()
    ensures Number("300000d"[..6]) == 300000
  {
    var s := "300000d"[..6];
    assert s == "300000";
    assert s[..1] == "3" && Number(s[..1]) == 3 by { assert "3"[..0] == ""; }
    forall k | 1 <= k < 6 ensures Number(s[..k + 1]) == Number(s[..k]) * 10 {
      assert s[..k + 1][..k] == s[..k] && s[k] == '0';
    }
    assert s[..6] == s;
    assert Number(s[..2]) == 30 && Number(s[..3]) == 300 && Number(s[..4]) == 3000;
    assert Number(s[..5]) == 30000;
  }
}
