/** Turning a command-line argument into a value: true and false, numbers, or the text. */
module ArgCoerce {
  import opened Options
  import opened Decimals

  // ---- The number scanner --------------------------------------------------

  function SignLength(s: string): (n: nat)
    ensures n <= |s| && n <= 1
  {
    if s != "" && Sign(s[0]) then 1 else 0
  }

  predicate ExponentOk(s: string) {
    if s == "" then true
    else if s[0] != 'e' && s[0] != 'E' then false
    else
      var t := s[1..][SignLength(s[1..])..];
      t != "" && Digits(t) == |t|
  }

  /** What may follow the given number of leading digits. */
  predicate TailOk(u: string, ints: nat) {
    if u != "" && u[0] == '.' then
      var fracs := Digits(u[1..]);
      ints + fracs > 0 && ExponentOk(u[1..][fracs..])
    else ints > 0 && ExponentOk(u)
  }

  predicate IsUnsigned(t: string) {
    TailOk(t[Digits(t)..], Digits(t))
  }

  /** What the scanner decides, part by part. */
  predicate IsDecimal(s: string) {
    IsUnsigned(s[SignLength(s)..])
  }

  method SkipSign(text: string, start: nat) returns (i: nat)
    requires start <= |text|
    ensures start <= i <= |text| && i == start + SignLength(text[start..])
  {
    i := start;
    if i < |text| && (text[i] == '+' || text[i] == '-') { i := i + 1; }
  }

  method SkipDigits(text: string, start: nat) returns (i: nat)
    requires start <= |text|
    ensures start <= i <= |text| && i == start + Digits(text[start..])
  {
    i := start;
    while i < |text| && '0' <= text[i] <= '9'
      invariant start <= i <= |text|
      invariant start + Digits(text[start..]) == i + Digits(text[i..])
    {
      assert text[i..][1..] == text[i + 1..];
      i := i + 1;
    }
  }

  method ScanExponent(text: string, start: nat) returns (r: bool)
    requires start <= |text|
    ensures r == ExponentOk(text[start..])
  {
    if start < |text| && (text[start] == 'e' || text[start] == 'E') {
      var k := SkipSign(text, start + 1);
      var j := SkipDigits(text, k);
      assert text[start..][1..] == text[start + 1..] && text[start + 1..][k - (start + 1)..] == text[k..];
      return j > k && j == |text|;
    }
    return start == |text|;
  }

  method ScanTail(text: string, start: nat, intDigits: nat) returns (r: bool)
    requires start <= |text|
    ensures r == TailOk(text[start..], intDigits)
  {
    var i, fracDigits := start, 0;
    if i < |text| && text[i] == '.' {
      i := SkipDigits(text, start + 1);
      fracDigits := i - (start + 1);
      assert text[start..][1..] == text[start + 1..] && text[start + 1..][fracDigits..] == text[i..];
    }
    if intDigits == 0 && fracDigits == 0 { return false; }
    r := ScanExponent(text, i);
  }

  lemma SliceAgain(text: string, i: nat, n: nat)
    requires i + n <= |text|
    ensures text[i..][n..] == text[i + n..]
  {
  }

  method IsDecimalNumber(text: string) returns (r: bool)
    ensures r == IsDecimal(text)
  {
    assert text[0..] == text;
    var start := SkipSign(text, 0);
    var i := SkipDigits(text, start);
    SliceAgain(text, start, i - start);
    ghost var rest := text[start..];
    assert Digits(rest) == i - start && rest[Digits(rest)..] == text[i..];
    r := ScanTail(text, i, i - start);
    assert r == IsUnsigned(rest);
  }

  // ---- The grammar ---------------------------------------------------------

  /** sign? digits? ('.' digits?)? (e sign? digits)? with a digit before the exponent. */
  datatype Literal = Literal(sign: string, ints: string, fraction: Option<string>, exponent: Option<Exponent>)
  datatype Exponent = Exponent(mark: char, sign: string, digits: string)

  predicate AllDigits(s: string) {
    forall i | 0 <= i < |s| :: Digit(s[i])
  }

  predicate MaySign(s: string) {
    s == "" || s == "+" || s == "-"
  }

  predicate GoodExponent(x: Option<Exponent>) {
    x.Some? ==>
      && (x.value.mark == 'e' || x.value.mark == 'E') && MaySign(x.value.sign)
      && x.value.digits != "" && AllDigits(x.value.digits)
  }

  predicate WellFormed(l: Literal) {
    && MaySign(l.sign) && AllDigits(l.ints)
    && (l.fraction.Some? ==> AllDigits(l.fraction.value))
    && (l.ints != "" || (l.fraction.Some? && l.fraction.value != ""))
    && GoodExponent(l.exponent)
  }

  function ExponentText(x: Option<Exponent>): string {
    if x.None? then "" else [x.value.mark] + (x.value.sign + x.value.digits)
  }

  function FractionText(f: Option<string>): string {
    if f.None? then "" else "." + f.value
  }

  function TextOf(l: Literal): string {
    l.sign + (l.ints + (FractionText(l.fraction) + ExponentText(l.exponent)))
  }

  lemma DigitsThen(ds: string, rest: string)
    requires AllDigits(ds) && (rest != "" ==> !Digit(rest[0]))
    ensures Digits(ds + rest) == |ds| && (ds + rest)[|ds|..] == rest && (ds + rest)[..|ds|] == ds
  {
    DigitsAre(ds + rest, |ds|);
  }

  lemma SignThen(sign: string, rest: string)
    requires MaySign(sign) && (rest != "" ==> !Sign(rest[0]))
    ensures SignLength(sign + rest) == |sign| && (sign + rest)[|sign|..] == rest
  {
  }

  lemma ExponentIsOk(x: Option<Exponent>)
    requires GoodExponent(x)
    ensures ExponentOk(ExponentText(x))
  {
    if x.Some? {
      var s := ExponentText(x);
      assert s[1..] == x.value.sign + x.value.digits;
      assert !Sign(x.value.digits[0]);
      SignThen(x.value.sign, x.value.digits);
      DigitsThen(x.value.digits, "");
      assert x.value.digits + "" == x.value.digits;
    }
  }

  lemma NoDigitStartsExponent(x: Option<Exponent>)
    requires GoodExponent(x)
    ensures ExponentText(x) != "" ==> !Digit(ExponentText(x)[0]) && !Sign(ExponentText(x)[0]) && ExponentText(x)[0] != '.'
  {
  }

  lemma FractionTailIsOk(ints: nat, f: string, tail: string)
    requires AllDigits(f) && (ints > 0 || f != "") && ExponentOk(tail) && (tail != "" ==> !Digit(tail[0]))
    ensures TailOk("." + f + tail, ints)
  {
    var u := "." + f + tail;
    assert u[1..] == f + tail;
    DigitsThen(f, tail);
  }

  lemma TailIsOk(ints: nat, f: Option<string>, x: Option<Exponent>)
    requires f.Some? ==> AllDigits(f.value)
    requires ints > 0 || (f.Some? && f.value != "")
    requires GoodExponent(x)
    ensures TailOk(FractionText(f) + ExponentText(x), ints)
  {
    ExponentIsOk(x);
    NoDigitStartsExponent(x);
    if f.Some? {
      FractionTailIsOk(ints, f.value, ExponentText(x));
    } else {
      assert FractionText(f) + ExponentText(x) == ExponentText(x);
    }
  }

  lemma LiteralIsDecimal(l: Literal)
    requires WellFormed(l)
    ensures IsDecimal(TextOf(l))
  {
    TailIsOk(|l.ints|, l.fraction, l.exponent);
    NoDigitStartsExponent(l.exponent);
    var u := FractionText(l.fraction) + ExponentText(l.exponent);
    assert u != "" ==> !Digit(u[0]) && !Sign(u[0]);
    assert l.ints != "" ==> Digit(l.ints[0]);
    DigitsThen(l.ints, u);
    SignThen(l.sign, l.ints + u);
  }

  function ExponentOf(s: string): Option<Exponent>
    requires ExponentOk(s)
  {
    if s == "" then None
    else Some(Exponent(s[0], s[1..][..SignLength(s[1..])], s[1..][SignLength(s[1..])..]))
  }

  /** The fraction and exponent that a tail spells. */
  function FractionOf(u: string): Option<string> {
    if u != "" && u[0] == '.' then Some(u[1..][..Digits(u[1..])]) else None
  }

  function AfterFraction(u: string): string {
    if u != "" && u[0] == '.' then u[1..][Digits(u[1..])..] else u
  }

  lemma DotThen(v: string, d: nat)
    requires d <= |v|
    ensures ("." + v[..d]) + v[d..] == "." + v
  {
  }

  lemma FractionSpelled(u: string)
    ensures FractionText(FractionOf(u)) + AfterFraction(u) == u
  {
    if u != "" && u[0] == '.' {
      DotThen(u[1..], Digits(u[1..]));
      assert u == "." + u[1..];
    } else {
      assert "" + u == u;
    }
  }

  function LiteralFrom(sign: string, ints: string, u: string): Literal
    requires ExponentOk(AfterFraction(u))
  {
    Literal(sign, ints, FractionOf(u), ExponentOf(AfterFraction(u)))
  }

  /** The literal that a scanned text spells. */
  function LiteralOf(s: string): Literal
    requires IsDecimal(s)
  {
    var t := s[SignLength(s)..];
    LiteralFrom(s[..SignLength(s)], t[..Digits(t)], t[Digits(t)..])
  }

  lemma ExponentSpelled(s: string)
    requires ExponentOk(s)
    ensures ExponentText(ExponentOf(s)) == s
    ensures GoodExponent(ExponentOf(s))
  {
    if s != "" {
      var n := SignLength(s[1..]);
      assert s[1..] == s[1..][..n] + s[1..][n..];
      assert s == [s[0]] + s[1..];
      assert n == 1 ==> s[1..][..n] == [s[1]];
    }
  }

  lemma SignIsOne(s: string)
    ensures MaySign(s[..SignLength(s)])
  {
    if SignLength(s) == 1 { assert s[..1] == [s[0]]; }
  }

  lemma FractionIsDigits(u: string)
    ensures FractionOf(u).Some? ==> AllDigits(FractionOf(u).value)
  {
  }

  lemma LiteralIsWellFormed(s: string)
    requires IsDecimal(s)
    ensures WellFormed(LiteralOf(s))
  {
    var t := s[SignLength(s)..];
    var u := t[Digits(t)..];
    SignIsOne(s);
    FractionIsDigits(u);
    ExponentSpelled(AfterFraction(u));
  }

  lemma TailIsSpelled(u: string)
    requires ExponentOk(AfterFraction(u))
    ensures FractionText(FractionOf(u)) + ExponentText(ExponentOf(AfterFraction(u))) == u
  {
    ExponentSpelled(AfterFraction(u));
    FractionSpelled(u);
  }

  lemma PartsAreSpelled(sign: string, ints: string, u: string)
    requires ExponentOk(AfterFraction(u))
    ensures TextOf(LiteralFrom(sign, ints, u)) == sign + (ints + u)
  {
    TailIsSpelled(u);
  }

  lemma Rejoin(s: string, n: nat, d: nat)
    requires n + d <= |s|
    ensures s[..n] + (s[n..][..d] + s[n..][d..]) == s
  {
    assert s[n..][..d] + s[n..][d..] == s[n..];
  }

  lemma LiteralIsSpelled(s: string)
    requires IsDecimal(s)
    ensures TextOf(LiteralOf(s)) == s
  {
    var n := SignLength(s);
    var d := Digits(s[n..]);
    PartsAreSpelled(s[..n], s[n..][..d], s[n..][d..]);
    Rejoin(s, n, d);
  }

  /** The scanner accepts exactly the texts of the grammar. */
  lemma ScannerIsTheGrammar(s: string)
    ensures IsDecimal(s) <==> exists l :: WellFormed(l) && TextOf(l) == s
  {
    if IsDecimal(s) {
      LiteralIsWellFormed(s);
      LiteralIsSpelled(s);
    } else {
      forall l | WellFormed(l) ensures TextOf(l) != s {
        LiteralIsDecimal(l);
      }
    }
  }

  // ---- The cascade ---------------------------------------------------------

  datatype Scalar = Flag(flag: bool) | Signed(n: int) | Unsigned(n: int) | Double(literal: string) | Text(text: string)

  const INT64_MIN := -0x8000_0000_0000_0000
  const INT64_MAX := 0x7fff_ffff_ffff_ffff
  const UINT64_MAX := 0xffff_ffff_ffff_ffff

  function DropTrailing(s: string): string {
    if s != "" && Blank(s[|s| - 1]) then DropTrailing(s[..|s| - 1]) else s
  }

  function Trimmed(s: string): string {
    DropTrailing(s[Blanks(s)..])
  }

  /** The number read, when the whole text was read. */
  function Whole(num: string, min: int, max: int): Option<int> {
    match Stol(num, min, max)
    case Some(r) => if r.consumed == |num| then Some(r.value) else None
    case None => None
  }

  /** The attempts on a number, in order. `fits` says whether `std::stod` takes the
      literal without overflowing. */
  function CoerceNumber(num: string, text: string, fits: string -> bool): Scalar {
    var signed, unsigned := Whole(num, INT64_MIN, INT64_MAX), Whole(num, 0, UINT64_MAX);
    if signed.Some? then Signed(signed.value)
    else if num != "" && num[0] != '-' && unsigned.Some? then Unsigned(unsigned.value)
    else if fits(num) then Double(num)
    else Text(text)
  }

  function Coerce(text: string, fits: string -> bool): Scalar {
    if text == "true" then Flag(true)
    else if text == "false" then Flag(false)
    else if !IsDecimal(Trimmed(text)) then Text(text)
    else CoerceNumber(Trimmed(text), text, fits)
  }

  /** sign? digits, with at least one digit. */
  predicate IsInteger(num: string) {
    var t := num[SignLength(num)..];
    t != "" && Digits(t) == |t|
  }

  function IntegerValue(num: string): int
    requires IsInteger(num)
  {
    var t := num[SignLength(num)..];
    var v: int := Number(t);
    if num[0] == '-' then 0 - v else v
  }

  lemma DecimalStarts(s: string)
    requires IsDecimal(s)
    ensures s != "" && !Blank(s[0])
  {
    var t := s[SignLength(s)..];
    if Digits(t) == 0 {
      assert t[0..] == t;
      assert t != "" && t[0] == '.';
    }
  }

  lemma IntegerIsDecimal(s: string)
    requires IsInteger(s)
    ensures IsDecimal(s)
  {
  }

  /** The C library reads the whole of a number exactly when it is an integer literal. */
  lemma ScanOfNumber(num: string)
    requires IsDecimal(num)
    ensures var r := ScanNumber(num);
            && (r.Scan? && r.consumed == |num| <==> IsInteger(num))
            && (IsInteger(num) ==> r.value == IntegerValue(num))
  {
    DecimalStarts(num);
    NoBlanks(num);
    var t := num[SignLength(num)..];
    assert num[0 + SignLength(num)..] == t;
    assert t[..|t|] == t;
  }

  lemma WholeIs(num: string, min: int, max: int)
    requires IsDecimal(num)
    ensures Whole(num, min, max).Some? <==> IsInteger(num) && min <= IntegerValue(num) <= max
    ensures Whole(num, min, max).Some? ==> Whole(num, min, max).value == IntegerValue(num)
  {
    ScanOfNumber(num);
  }

  predicate IsWord(text: string) {
    text == "true" || text == "false"
  }

  /** The two words, as they stand and unpadded, are flags, and nothing else is. */
  lemma WordsAreFlags(text: string, fits: string -> bool)
    ensures Coerce("true", fits) == Flag(true) && Coerce("false", fits) == Flag(false)
    ensures Coerce(text, fits).Flag? <==> text == "true" || text == "false"
  {
  }

  lemma SignOfValue(num: string)
    requires IsInteger(num)
    ensures IntegerValue(num) > 0 ==> num[0] != '-'
  {
  }

  /** An integer literal, blanks around it allowed, becomes the exact signed 64-bit value
      if it fits there, the exact unsigned one if it fits only there, and otherwise never
      an integer; nothing else becomes an integer. */
  lemma IntegersAreExact(text: string, fits: string -> bool)
    requires !IsWord(text)
    ensures var r, num := Coerce(text, fits), Trimmed(text);
            && (r.Signed? <==> IsInteger(num) && INT64_MIN <= IntegerValue(num) <= INT64_MAX)
            && (r.Unsigned? <==> IsInteger(num) && INT64_MAX < IntegerValue(num) <= UINT64_MAX)
            && (r.Signed? || r.Unsigned? ==> r.n == IntegerValue(num))
  {
    var num := Trimmed(text);
    if IsDecimal(num) {
      DecimalStarts(num);
      WholeIs(num, INT64_MIN, INT64_MAX);
      WholeIs(num, 0, UINT64_MAX);
      if IsInteger(num) { SignOfValue(num); }
    } else if IsInteger(num) {
      IntegerIsDecimal(num);
    }
  }

  /** Anything but a word or a number stays the caller's text, unchanged; a number that is
      no 64-bit integer is a double, or the text when it overflows. */
  lemma OthersStayText(text: string, fits: string -> bool)
    requires !IsWord(text)
    ensures var r, num := Coerce(text, fits), Trimmed(text);
            && !r.Flag?
            && (r.Double? ==> IsDecimal(num) && fits(num) && r.literal == num)
            && (r.Text? <==> !IsDecimal(num) || (!r.Signed? && !r.Unsigned? && !fits(num)))
            && (r.Text? ==> r.text == text)
  {
    NumbersEnd(Trimmed(text), text, fits);
  }

  lemma NumbersEnd(num: string, text: string, fits: string -> bool)
    ensures var r := CoerceNumber(num, text, fits);
            && !r.Flag? && (r.Double? ==> fits(num) && r.literal == num)
            && (r.Text? <==> !r.Signed? && !r.Unsigned? && !fits(num)) && (r.Text? ==> r.text == text)
  {
  }

  // ---- Printing an integer and coercing it ---------------------------------

  function Printed(n: int): string {
    if n < 0 then "-" + Decimal(0 - n) else Decimal(n)
  }

  /** Nothing but spaces, tabs, newlines, carriage returns, vertical tabs and form feeds. */
  predicate AllBlank(s: string) {
    forall i | 0 <= i < |s| ::
      s[i] == ' ' || s[i] == '\t' || s[i] == '\n' || s[i] == '\r' || s[i] as int == 11 || s[i] as int == 12
  }

  lemma {:induction false} BlanksThen(a: string, s: string)
    requires AllBlank(a) && s != "" && !Blank(s[0])
    ensures Blanks(a + s) == |a|
  {
    if a == "" {
      assert a + s == s;
    } else {
      assert (a + s)[1..] == a[1..] + s;
      BlanksThen(a[1..], s);
    }
  }

  lemma {:induction false} TrailingThen(s: string, b: string)
    requires AllBlank(b) && s != "" && !Blank(s[|s| - 1])
    ensures DropTrailing(s + b) == s
  {
    if b == "" {
      assert s + b == s;
    } else {
      assert (s + b)[..|s + b| - 1] == s + b[..|b| - 1];
      TrailingThen(s, b[..|b| - 1]);
    }
  }

  lemma TrimmedPadded(a: string, s: string, b: string)
    requires AllBlank(a) && AllBlank(b) && s != "" && !Blank(s[0]) && !Blank(s[|s| - 1])
    ensures Trimmed(a + (s + b)) == s
  {
    BlanksThen(a, s + b);
    assert (a + (s + b))[|a|..] == s + b;
    TrailingThen(s, b);
  }

  lemma DecimalIsInteger(m: nat)
    ensures IsInteger(Decimal(m)) && IntegerValue(Decimal(m)) == m
    ensures IsInteger("-" + Decimal(m)) && IntegerValue("-" + Decimal(m)) == 0 - m
  {
    var d := Decimal(m);
    NumberOfDecimal(m);
    DigitsAre(d, |d|);
    assert Digit(d[0]);
    assert d[0..] == d && ("-" + d)[1..] == d;
  }

  lemma PrintedIsInteger(n: int)
    ensures IsInteger(Printed(n)) && IntegerValue(Printed(n)) == n
    ensures var s := Printed(n); s != "" && !Blank(s[0]) && !Blank(s[|s| - 1])
  {
    var d := Decimal(if n < 0 then 0 - n else n);
    DecimalIsInteger(if n < 0 then 0 - n else n);
    assert Digit(d[0]) && Digit(d[|d| - 1]);
  }

  lemma PaddedIsNoWord(a: string, n: int, b: string)
    requires AllBlank(a)
    ensures !IsWord(a + (Printed(n) + b))
  {
    PrintedIsInteger(n);
    var s := a + (Printed(n) + b);
    if a == "" { assert s[0] == Printed(n)[0]; } else { assert s[0] == a[0]; }
  }

  /** Printing any integer from -2^63 to 2^64 - 1 and coercing the text, with any blanks
      around it, gives back that integer. */
  lemma PrintedIsCoercedBack(n: int, a: string, b: string, fits: string -> bool)
    requires INT64_MIN <= n <= UINT64_MAX && AllBlank(a) && AllBlank(b)
    ensures Coerce(a + (Printed(n) + b), fits) == if n <= INT64_MAX then Signed(n) else Unsigned(n)
  {
    PrintedIsInteger(n);
    TrimmedPadded(a, Printed(n), b);
    PaddedIsNoWord(a, n, b);
    IntegersAreExact(a + (Printed(n) + b), fits);
  }
}
