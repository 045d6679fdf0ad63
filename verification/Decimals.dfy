/** Decimal digits, and the number that the C library reads at the front of a text
    (section 7.22.1.4 of C11). */
module Decimals {
  import opened Options

  predicate Digit(c: char) {
    '0' <= c <= '9'
  }

  function Value(c: char): (v: int)
    requires Digit(c)
    ensures 0 <= v <= 9
  {
    c as int - '0' as int
  }

  function DigitOf(v: int): (c: char)
    requires 0 <= v <= 9
    ensures Digit(c) && Value(c) == v
  {
    ('0' as int + v) as char
  }

  function Decimal(n: nat): (s: string)
    ensures s != "" && forall i | 0 <= i < |s| :: Digit(s[i])
  {
    if n < 10 then [DigitOf(n)] else Decimal(n / 10) + [DigitOf(n % 10)]
  }

  function Number(s: string): (n: nat)
    requires forall i | 0 <= i < |s| :: Digit(s[i])
  {
    if s == "" then 0 else Number(s[..|s| - 1]) * 10 + Value(s[|s| - 1])
  }

  lemma {:induction false} NumberOfDecimal(n: nat)
    ensures Number(Decimal(n)) == n
  {
    var s := Decimal(n);
    if n >= 10 {
      NumberOfDecimal(n / 10);
      assert s[..|s| - 1] == Decimal(n / 10);
    } else {
      assert s[..0] == "";
    }
  }

  // ---- strtoll and its relatives -------------------------------------------

  predicate Blank(c: char) {
    c == ' ' || c == '\t' || c == '\n' || c == '\r' || c as int == 11 || c as int == 12
  }

  predicate Sign(c: char) {
    c == '+' || c == '-'
  }

  function Blanks(s: string): (n: nat)
    ensures n <= |s| && (forall i | 0 <= i < n :: Blank(s[i])) && (n < |s| ==> !Blank(s[n]))
  {
    if s == "" || !Blank(s[0]) then 0 else 1 + Blanks(s[1..])
  }

  function Digits(s: string): (n: nat)
    ensures n <= |s| && (forall i | 0 <= i < n :: Digit(s[i])) && (n < |s| ==> !Digit(s[n]))
  {
    if s == "" || !Digit(s[0]) then 0 else 1 + Digits(s[1..])
  }

  /** Blanks, a sign, digits: the number read and how much of the text it took. */
  datatype Scan = NoNumber | Scan(value: int, consumed: nat)

  function ScanNumber(s: string): (r: Scan)
    ensures r.Scan? ==> 0 < r.consumed <= |s|
  {
    var b := Blanks(s);
    var sign := if b < |s| && Sign(s[b]) then 1 else 0;
    var t := s[b + sign..];
    var d := Digits(t);
    if d == 0 then NoNumber
    else
      var v: int := Number(t[..d]);
      Scan(if sign == 1 && s[b] == '-' then 0 - v else v, b + sign + d)
  }

  /** `std::stoi` and `std::stoll`: nothing when they throw. */
  function Stol(s: string, min: int, max: int): Option<Scan> {
    var r := ScanNumber(s);
    if r.NoNumber? || r.value < min || r.value > max then None else Some(r)
  }

  /** The first non-digit is where the digits end. */
  lemma {:induction false} DigitsAre(s: string, n: nat)
    requires n <= |s| && (forall i | 0 <= i < n :: Digit(s[i])) && (n < |s| ==> !Digit(s[n]))
    ensures Digits(s) == n
  {
    if n > 0 { DigitsAre(s[1..], n - 1); }
  }

  lemma NoBlanks(s: string)
    requires s != "" && !Blank(s[0])
    ensures Blanks(s) == 0
  {
  }

  /** A printed number is read back whole. */
  lemma ScanOfDecimal(n: nat)
    ensures ScanNumber(Decimal(n)) == Scan(n, |Decimal(n)|)
  {
    var s := Decimal(n);
    assert Digit(s[0]);
    NoBlanks(s);
    DigitsAre(s, |s|);
    NumberOfDecimal(n);
    assert s[0..] == s && s[..|s|] == s;
  }
}
