/** Absolute expiries: which texts of the right shape are honoured, and when.

    `resolveExpires` only looks at the shape. Whether the stored text is ever readable is
    decided by the parser each time the token is used. */
module AbsoluteExpiry {
  import opened Options
  import opened Calendar
  import opened Decimals
  import opened Expiry

  const FULL := "0000-00-00T00:00:00Z"
  const DATE := "0000-00-00"

  predicate TwoDigitsAt(s: string, i: nat) {
    i + 1 < |s| && Digit(s[i]) && Digit(s[i + 1])
  }

  function Two(s: string, i: nat): (v: int)
    requires TwoDigitsAt(s, i)
    ensures 0 <= v <= 99
  {
    Value(s[i]) * 10 + Value(s[i + 1])
  }

  predicate AllFields(s: string) {
    && TwoDigitsAt(s, 0) && TwoDigitsAt(s, 2) && TwoDigitsAt(s, 5)
    && TwoDigitsAt(s, 8) && TwoDigitsAt(s, 11) && TwoDigitsAt(s, 14) && TwoDigitsAt(s, 17)
  }

  /** The time that a text of the full shape spells, field by field. */
  function Spelled(s: string): Tm
    requires AllFields(s)
  {
    Tm(Two(s, 0) * 100 + Two(s, 2), Two(s, 5), Two(s, 8), Two(s, 11), Two(s, 14), Two(s, 17))
  }

  /** The ranges of the fields; the day is not compared with its month. */
  predicate FieldsInRange(tm: Tm) {
    1 <= tm.month <= 12 && 1 <= tm.day <= 31 && 0 <= tm.hour <= 23 && 0 <= tm.minute <= 59 && 0 <= tm.second <= 61
  }

  lemma ShapeDigits(s: string)
    requires Shape(s, FULL)
    ensures |s| == 20 && AllFields(s)
  {
    assert Digit(s[0]) && Digit(s[1]) && Digit(s[2]) && Digit(s[3]) && Digit(s[5]) && Digit(s[6]) && Digit(s[8]);
    assert Digit(s[9]) && Digit(s[11]) && Digit(s[12]) && Digit(s[14]) && Digit(s[15]) && Digit(s[17]) && Digit(s[18]);
  }

  /** The separators up to the 'Z'; the text may be longer. */
  predicate Marked(s: string) {
    |s| >= 20 && s[4] == '-' && s[7] == '-' && s[10] == 'T' && s[13] == ':' && s[16] == ':' && s[19] == 'Z'
  }

  lemma ShapeMarks(s: string)
    requires Shape(s, FULL)
    ensures Marked(s)
  {
  }

  // ---- One field at a time -------------------------------------------------

  /** Two digits and the separator: read exactly when the number is in range. */
  lemma FieldIsRead(s: string, min: int, max: int, c: char)
    requires TwoDigitsAt(s, 0) && |s| > 2 && s[2] == c && !Digit(c)
    requires 0 <= min <= max && 10 <= max <= 99
    ensures ReadField(s, min, max, 2, c) == if min <= Two(s, 0) <= max then Expiry.Read(Two(s, 0), s[3..]) else Fail
  {
    assert SkipSpaces(s) == s;
    var d := Value(s[0]);
    assert s[1..][0] == s[1] && s[1..][1..] == s[2..] && s[2..][1..] == s[3..];
    if d * 10 <= max {
      assert ReadDigits(s, 2, max, 0) == ReadDigits(s[1..], 1, max, d);
      assert ReadDigits(s[1..], 1, max, d) == Expiry.Read(Two(s, 0), s[2..]);
    } else {
      assert ReadDigits(s, 2, max, 0) == Expiry.Read(d, s[1..]);
    }
  }

  lemma YearIsRead(s: string)
    requires AllFields(s) && s[4] == '-'
    ensures ReadField(s, 0, 9999, 4, '-') == Expiry.Read(Two(s, 0) * 100 + Two(s, 2), s[5..])
  {
    var v1 := Value(s[0]);
    var v2 := v1 * 10 + Value(s[1]);
    var v3 := v2 * 10 + Value(s[2]);
    assert s[0..] == s && SkipSpaces(s) == s;
    ReadOneChar(s, 0, 4, 0);
    ReadOneChar(s, 1, 3, v1);
    ReadOneChar(s, 2, 2, v2);
    ReadOneChar(s, 3, 1, v3);
    assert s[4..][0] == '-' && s[4..][1..] == s[5..];
  }

  /** The field at an offset of the text. */
  lemma FieldAt(s: string, i: nat, min: int, max: int, c: char)
    requires TwoDigitsAt(s, i) && i + 2 < |s| && s[i + 2] == c && !Digit(c)
    requires 0 <= min <= max && 10 <= max <= 99
    ensures ReadField(s[i..], min, max, 2, c) == if min <= Two(s, i) <= max then Expiry.Read(Two(s, i), s[i + 3..]) else Fail
  {
    var t := s[i..];
    assert t[0] == s[i] && t[1] == s[i + 1] && t[2] == s[i + 2] && t[3..] == s[i + 3..];
    FieldIsRead(t, min, max, c);
  }

  /** What the parser gets out of the time of day, from the hour on. */
  function ReadClock(s: string): Option<(int, int, int)> {
    match ReadField(s, 0, 23, 2, ':') case Fail => None case Read(hour, s1) =>
    match ReadField(s1, 0, 59, 2, ':') case Fail => None case Read(minute, s2) =>
    match ReadField(s2, 0, 61, 2, 'Z') case Fail => None case Read(second, _) =>
    Some((hour, minute, second))
  }

  lemma ClockIsRead(s: string)
    requires AllFields(s) && Marked(s)
    ensures ReadClock(s[11..]) == if Two(s, 11) <= 23 && Two(s, 14) <= 59 && Two(s, 17) <= 61
                                  then Some((Two(s, 11), Two(s, 14), Two(s, 17))) else None
  {
    FieldAt(s, 11, 0, 23, ':');
    FieldAt(s, 14, 0, 59, ':');
    FieldAt(s, 17, 0, 61, 'Z');
  }

  lemma ParseByClock(s: string)
    ensures Parse(s) ==
      match ReadField(s, 0, 9999, 4, '-') case Fail => None case Read(year, s1) =>
      match ReadField(s1, 1, 12, 2, '-') case Fail => None case Read(month, s2) =>
      match ReadField(s2, 1, 31, 2, 'T') case Fail => None case Read(day, s3) =>
      match ReadClock(s3) case None => None case Some(c) => Some(Tm(year, month, day, c.0, c.1, c.2))
  {
  }

  lemma TimeIsRead(s: string)
    requires AllFields(s) && Marked(s)
    ensures Parse(s) == if FieldsInRange(Spelled(s)) then Some(Spelled(s)) else None
  {
    YearIsRead(s);
    FieldAt(s, 5, 1, 12, '-');
    FieldAt(s, 8, 1, 31, 'T');
    ClockIsRead(s);
    ParseByClock(s);
  }

  // ---- The stored text -----------------------------------------------------

  /** A text of the full shape is honoured to the second when its fields are in range, and
      never accepted when they are not. */
  lemma Honoured(s: string)
    requires Shape(s, FULL)
    ensures AllFields(s)
    ensures FieldsInRange(Spelled(s)) ==> ExpiresExactlyAt(s, SecondsOf(Spelled(s)))
    ensures !FieldsInRange(Spelled(s)) ==> forall now: int :: IsExpired(s, now)
  {
    ShapeDigits(s);
    ShapeMarks(s);
    TimeIsRead(s);
  }

  lemma ShapesAreAbsolute(s: string)
    requires Shape(s, FULL) || Shape(s, DATE)
    ensures s != "" && !Relative(s)
  {
    var last := s[|s| - 1];
    if |s| == 20 { ShapeMarks(s); } else { assert Digit(last); }
  }

  lemma FullIsKept(s: string, now: int, rate: int)
    requires Shape(s, FULL) && rate > 0
    ensures Resolve(s, now, rate) == Some(s)
  {
    ShapesAreAbsolute(s);
    assert !Shape(s, DATE) by { assert |FULL| == 20 && |DATE| == 10; }
  }

  lemma DateIsMidnight(s: string, now: int, rate: int)
    requires Shape(s, DATE) && rate > 0
    ensures Resolve(s, now, rate) == Some(s + "T00:00:00Z")
  {
    ShapesAreAbsolute(s);
  }

  lemma MidnightShape(s: string)
    requires Shape(s, DATE)
    ensures Shape(s + "T00:00:00Z", FULL)
  {
    var t := s + "T00:00:00Z";
    assert |s| == 10 && |t| == 20;
    forall i | 0 <= i < 20 ensures if FULL[i] == '0' then Digit(t[i]) else t[i] == FULL[i] {
      if i < 10 { assert t[i] == s[i] && FULL[i] == DATE[i]; } else { assert t[i] == "T00:00:00Z"[i - 10]; }
    }
  }

  lemma MidnightSpelled(s: string)
    requires Shape(s, DATE)
    ensures AllFields(s + "T00:00:00Z") && TwoDigitsAt(s, 0) && TwoDigitsAt(s, 2) && TwoDigitsAt(s, 5) && TwoDigitsAt(s, 8)
    ensures Spelled(s + "T00:00:00Z") == Tm(Two(s, 0) * 100 + Two(s, 2), Two(s, 5), Two(s, 8), 0, 0, 0)
  {
    var t := s + "T00:00:00Z";
    MidnightShape(s);
    ShapeDigits(t);
    assert forall i | 0 <= i < 10 :: t[i] == s[i];
    assert t[11] == '0' && t[12] == '0' && t[14] == '0' && t[15] == '0' && t[17] == '0' && t[18] == '0';
  }

  /** An absolute deadline with a time: stored as it stands, and honoured exactly when its
      fields are in range. */
  lemma AbsoluteTime(s: string, now: int, rate: int)
    requires Shape(s, FULL) && rate > 0
    ensures Resolve(s, now, rate) == Some(s) && AllFields(s)
    ensures (exists t: int :: ExpiresExactlyAt(s, t)) <==> FieldsInRange(Spelled(s))
    ensures FieldsInRange(Spelled(s)) ==> ExpiresExactlyAt(s, SecondsOf(Spelled(s)))
    ensures !FieldsInRange(Spelled(s)) ==> forall at: int :: IsExpired(s, at)
  {
    FullIsKept(s, now, rate);
    Honoured(s);
    if !FieldsInRange(Spelled(s)) {
      forall t: int ensures !ExpiresExactlyAt(s, t) {
        assert IsExpired(s, t - 1);
      }
    }
  }

  /** An absolute date: it expires at midnight UTC of that date exactly when the month is
      1 to 12 and the day 1 to 31, and is never accepted otherwise. */
  lemma AbsoluteDate(s: string, now: int, rate: int)
    requires Shape(s, DATE) && rate > 0
    ensures TwoDigitsAt(s, 0) && TwoDigitsAt(s, 2) && TwoDigitsAt(s, 5) && TwoDigitsAt(s, 8)
    ensures Resolve(s, now, rate).Some?
    ensures var stored, tm := Resolve(s, now, rate).value, Tm(Two(s, 0) * 100 + Two(s, 2), Two(s, 5), Two(s, 8), 0, 0, 0);
            if 1 <= tm.month <= 12 && 1 <= tm.day <= 31 then ExpiresExactlyAt(stored, SecondsOf(tm))
            else forall at: int :: IsExpired(stored, at)
  {
    DateIsMidnight(s, now, rate);
    MidnightShape(s);
    MidnightSpelled(s);
    Honoured(s + "T00:00:00Z");
  }

  /** A day past the end of its month counts on into the next one. */
  lemma DayRollsOver(tm: Tm)
    requires FieldsInRange(tm) && tm.day > MonthLength(tm.year, tm.month)
    ensures tm.month < 12
    ensures SecondsOf(tm) == SecondsOf(tm.(month := tm.month + 1, day := tm.day - MonthLength(tm.year, tm.month)))
  {
  }

  /** Texts of the right shape that are stored and never accepted. */
  lemma NeverAccepted(now: int, rate: int, at: int)
    requires rate > 0
    ensures Resolve("2026-00-10T00:00:00Z", now, rate) == Some("2026-00-10T00:00:00Z") && IsExpired("2026-00-10T00:00:00Z", at)
    ensures Resolve("2026-12-31T24:00:00Z", now, rate) == Some("2026-12-31T24:00:00Z") && IsExpired("2026-12-31T24:00:00Z", at)
  {
    MonthZero(now, rate, at);
    HourTwentyFour(now, rate, at);
  }

  lemma MonthZero(now: int, rate: int, at: int)
    requires rate > 0
    ensures Resolve("2026-00-10T00:00:00Z", now, rate) == Some("2026-00-10T00:00:00Z") && IsExpired("2026-00-10T00:00:00Z", at)
  {
    var s := "2026-00-10T00:00:00Z";
    assert Shape(s, FULL);
    AbsoluteTime(s, now, rate);
    assert Two(s, 5) == 0;
  }

  lemma HourTwentyFour(now: int, rate: int, at: int)
    requires rate > 0
    ensures Resolve("2026-12-31T24:00:00Z", now, rate) == Some("2026-12-31T24:00:00Z") && IsExpired("2026-12-31T24:00:00Z", at)
  {
    var s := "2026-12-31T24:00:00Z";
    assert Shape(s, FULL);
    AbsoluteTime(s, now, rate);
    assert Two(s, 11) == 24;
  }

  /** A month past 12 among them, whatever the other fields. */
  lemma MonthPastTwelve(s: string, now: int, rate: int)
    requires Shape(s, FULL) && rate > 0
    requires Value(s[5]) * 10 + Value(s[6]) > 12
    ensures Resolve(s, now, rate) == Some(s) && IsExpired(s, now)
  {
    AbsoluteTime(s, now, rate);
    assert Two(s, 5) > 12;
  }

  // ---- What follows the 'Z' ------------------------------------------------

  lemma {:induction false} SpacesThenMore(s: string, x: string)
    requires SkipSpaces(s) != ""
    ensures SkipSpaces(s + x) == SkipSpaces(s) + x
  {
    assert (s + x)[0] == s[0];
    if s[0] == ' ' {
      assert (s + x)[1..] == s[1..] + x;
      SpacesThenMore(s[1..], x);
    }
  }

  lemma {:induction false} DigitsThenMore(s: string, x: string, width: nat, max: int, sofar: int)
    requires max >= 0 && ReadDigits(s, width, max, sofar).rest != ""
    ensures var r := ReadDigits(s, width, max, sofar);
            ReadDigits(s + x, width, max, sofar) == Expiry.Read(r.value, r.rest + x)
    decreases width
  {
    if width > 0 && s != "" && Digit(s[0]) && sofar * 10 <= max {
      assert (s + x)[0] == s[0] && (s + x)[1..] == s[1..] + x;
      DigitsThenMore(s[1..], x, width - 1, max, sofar * 10 + Value(s[0]));
    } else {
      assert (s + x)[0] == s[0];
    }
  }

  lemma FieldThenMore(s: string, x: string, min: int, max: int, width: nat, c: char)
    requires max >= 0 && ReadField(s, min, max, width, c).Read?
    ensures var r := ReadField(s, min, max, width, c);
            ReadField(s + x, min, max, width, c) == Expiry.Read(r.value, r.rest + x)
  {
    var t := SkipSpaces(s);
    SpacesThenMore(s, x);
    DigitsThenMore(t, x, width, max, 0);
    var rest := ReadDigits(t, width, max, 0).rest;
    assert (t + x)[0] == t[0] && (rest + x)[0] == rest[0] && (rest + x)[1..] == rest[1..] + x;
  }

  /** The parser of the POSIX branch is not anchored at the end: a readable text stays
      readable, with the same meaning, whatever is written behind it. */
  lemma TrailingTextIsIgnored(s: string, x: string)
    requires Parse(s).Some?
    ensures Parse(s + x) == Parse(s)
  {
    var s1 := ReadField(s, 0, 9999, 4, '-').rest;
    var s2 := ReadField(s1, 1, 12, 2, '-').rest;
    var s3 := ReadField(s2, 1, 31, 2, 'T').rest;
    var s4 := ReadField(s3, 0, 23, 2, ':').rest;
    var s5 := ReadField(s4, 0, 59, 2, ':').rest;
    FieldThenMore(s, x, 0, 9999, 4, '-');
    FieldThenMore(s1, x, 1, 12, 2, '-');
    FieldThenMore(s2, x, 1, 31, 2, 'T');
    FieldThenMore(s3, x, 0, 23, 2, ':');
    FieldThenMore(s4, x, 0, 59, 2, ':');
    FieldThenMore(s5, x, 0, 61, 2, 'Z');
  }

  /** Whatever follows a text of the full shape, the whole is readable exactly when the
      fields are in range, and then it is a deadline at the second they spell. */
  lemma TrailingTextExactlyWhen(s: string, x: string)
    requires Shape(s, FULL)
    ensures AllFields(s) && (Parse(s + x).Some? <==> FieldsInRange(Spelled(s)))
    ensures FieldsInRange(Spelled(s)) ==> ExpiresExactlyAt(s + x, SecondsOf(Spelled(s)))
    ensures !FieldsInRange(Spelled(s)) ==> forall at: int :: IsExpired(s + x, at)
  {
    ShapeDigits(s);
    ShapeMarks(s);
    var t := s + x;
    assert forall i | 0 <= i < 20 :: t[i] == s[i];
    TimeIsRead(t);
    assert Spelled(t) == Spelled(s);
  }

  const NEW_YEAR := "2027-01-01T00:00:00Z"

  lemma NewYearSpells()
    ensures Shape(NEW_YEAR, FULL) && AllFields(NEW_YEAR) && Spelled(NEW_YEAR) == Tm(2027, 1, 1, 0, 0, 0)
  {
    ShapeDigits(NEW_YEAR);
    assert Two(NEW_YEAR, 0) == 20 && Two(NEW_YEAR, 2) == 27 && Two(NEW_YEAR, 5) == 1;
  }

  /** A text with something behind the time, not of the full shape, that is accepted
      before that time. */
  lemma JunkIsAccepted(at: int)
    ensures !Shape(NEW_YEAR + ", or so", FULL)
    ensures at < SecondsOf(Tm(2027, 1, 1, 0, 0, 0)) ==> !IsExpired(NEW_YEAR + ", or so", at)
  {
    NewYearSpells();
    TrailingTextExactlyWhen(NEW_YEAR, ", or so");
  }
}
