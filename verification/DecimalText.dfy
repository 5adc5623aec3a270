/** Decimal text: what std::to_string and "{:.1f}" write, and what std::from_chars and std::stof read
    back of it. */
module DecimalText {
  import opened Wrappers

  function DigitChar(d: nat): char
    requires d < 10
  {
    '0' + d as char
  }

  predicate IsDigit(c: char) {
    '0' <= c <= '9'
  }

  function Digits(n: nat): string {
    if n < 10 then [DigitChar(n)] else Digits(n / 10) + [DigitChar(n % 10)]
  }

  function Abs(n: int): nat {
    if n < 0 then -n else n
  }

  function Decimal(n: int): string {
    if n < 0 then "-" + Digits(Abs(n)) else Digits(n)
  }

  predicate AllDigits(s: string) {
    forall i :: 0 <= i < |s| ==> IsDigit(s[i])
  }

  function DigitsValue(s: string): nat
    requires AllDigits(s)
  {
    if s == "" then 0 else 10 * DigitsValue(s[..|s| - 1]) + (s[|s| - 1] as int - '0' as int)
  }

  /** How many digits a text starts with. */
  function DigitRun(s: string): (n: nat)
    ensures n <= |s| && AllDigits(s[..n]) && (n < |s| ==> !IsDigit(s[n]))
  {
    if s != "" && IsDigit(s[0]) then
      assert s[..1 + DigitRun(s[1..])] == [s[0]] + s[1..][..DigitRun(s[1..])];
      1 + DigitRun(s[1..])
    else 0
  }

  lemma {:induction false} DigitsMean(n: nat)
    ensures Digits(n) != "" && AllDigits(Digits(n)) && DigitsValue(Digits(n)) == n
  {
    if n < 10 {
      assert Digits(n)[..0] == "";
    } else {
      DigitsMean(n / 10);
      assert Digits(n)[..|Digits(n)| - 1] == Digits(n / 10);
    }
  }

  /** A run of digits ends where the first other character stands. */
  lemma {:induction false} RunEnds(digits: string, rest: string)
    requires AllDigits(digits) && (rest != "" ==> !IsDigit(rest[0]))
    ensures DigitRun(digits + rest) == |digits|
  {
    if digits == "" {
      assert digits + rest == rest;
    } else {
      RunEnds(digits[1..], rest);
      assert (digits + rest)[1..] == digits[1..] + rest;
    }
  }

  const INT32_MIN: int := -0x8000_0000
  const INT32_MAX: int := 0x7fff_ffff

  type int32 = n: int | INT32_MIN <= n <= INT32_MAX witness 0

  function Unsigned(s: string): string {
    if s != "" && s[0] == '-' then s[1..] else s
  }

  function Signed(s: string, n: nat): int {
    if s != "" && s[0] == '-' then 0 - n else n
  }

  /** std::from_chars into a 32-bit int: an optional minus and a run of digits; what follows the
      digits is ignored. */
  function FromChars(s: string): Option<int32> {
    var t := Unsigned(s);
    var run := DigitRun(t);
    var n: int := Signed(s, DigitsValue(t[..run]));
    if run == 0 || !(INT32_MIN <= n <= INT32_MAX) then None else Some(n)
  }

  predicate EndsNumber(rest: string) {
    rest != "" ==> !IsDigit(rest[0]) && rest[0] != 'e' && rest[0] != 'E'
  }

  lemma IntegerReads(n: int32, rest: string)
    requires EndsNumber(rest)
    ensures FromChars(Decimal(n) + rest) == Some(n)
  {
    hide Digits, DigitsValue, IsDigit;
    var m := Abs(n);
    DigitsMean(m);
    SignStripped(n < 0, Digits(m), rest);
    RunEnds(Digits(m), rest);
    assert (Digits(m) + rest)[..|Digits(m)|] == Digits(m);
  }

  lemma SignStripped(negative: bool, digits: string, rest: string)
    requires digits != "" && AllDigits(digits)
    ensures var s := (if negative then "-" + digits else digits) + rest;
      s != "" && (s[0] == '-' <==> negative) && Unsigned(s) == digits + rest
  {
    var s := (if negative then "-" + digits else digits) + rest;
    assert negative ==> s[1..] == digits + rest;
  }

  // ----- one decimal place -------------------------------------------------------------------

  /** The nearest tenth, in tenths. */
  function Tenths(rate: real): int {
    (rate * 10.0 + 0.5).Floor
  }

  predicate WholeTenths(rate: real) {
    Tenths(rate) as real == rate * 10.0
  }

  function RateText(rate: real): string {
    var t := Tenths(rate);
    var m := Abs(t);
    (if t < 0 then "-" else "") + Digits(m / 10) + "." + [DigitChar(m % 10)]
  }

  predicate IsSpace(c: char) {
    c == ' ' || '\t' <= c <= '\r'
  }

  function SkipSpace(s: string): string {
    if s != "" && IsSpace(s[0]) then SkipSpace(s[1..]) else s
  }

  function Power10(n: nat): (p: nat)
    ensures p > 0
  {
    if n == 0 then 1 else 10 * Power10(n - 1)
  }

  /** Digits before and behind a point. */
  function Fixed(whole: string, fraction: string): real
    requires AllDigits(whole) && AllDigits(fraction)
  {
    DigitsValue(whole) as real + DigitsValue(fraction) as real / Power10(|fraction|) as real
  }

  /** Digits and a point with digits, at least one digit in all, and what follows. */
  function Mantissa(t: string): Option<(real, string)> {
    var whole := DigitRun(t);
    var point := whole < |t| && t[whole] == '.';
    var fraction := if point then t[whole + 1..][..DigitRun(t[whole + 1..])] else "";
    if whole == 0 && fraction == "" then None
    else Some((Fixed(t[..whole], fraction), if point then t[whole + 1..][|fraction|..] else t[whole..]))
  }

  /** A power of ten, if a text starts with a whole exponent. */
  function Scale(t: string): real {
    if t == "" || (t[0] != 'e' && t[0] != 'E') then 1.0
    else
      var signed := |t| > 1 && (t[1] == '-' || t[1] == '+');
      var digits := if signed then t[2..] else t[1..];
      var power := Power10(DigitsValue(digits[..DigitRun(digits)])) as real;
      if signed && t[1] == '-' then 1.0 / power else power
  }

  function Scaled(v: real, rest: string): real {
    v * Scale(rest)
  }

  function Magnitude(t: string): Option<real> {
    match Mantissa(t)
    case None => None
    case Some((v, rest)) => Some(Scaled(v, rest))
  }

  /** std::stof: blanks, a sign and a magnitude. */
  function Stof(text: string): Option<real> {
    var s := SkipSpace(text);
    var t := if s != "" && (s[0] == '-' || s[0] == '+') then s[1..] else s;
    match Magnitude(t)
    case None => None
    case Some(v) => Some(if s != "" && s[0] == '-' then -v else v)
  }

  lemma MagnitudeReads(m: nat, rest: string)
    requires EndsNumber(rest)
    ensures Magnitude(Digits(m / 10) + ("." + ([DigitChar(m % 10)] + rest))) == Some(m as real / 10.0)
  {
    hide Digits, DigitsValue, DigitChar, Power10, Fixed, Scale;
    var digits, tail := Digits(m / 10), [DigitChar(m % 10)] + rest;
    var t := digits + ("." + tail);
    DigitsMean(m / 10);
    RunEnds(digits, "." + tail);
    OneDigit(m % 10, rest);
    assert tail[1..] == rest;
    assert t[..|digits|] == digits && t[|digits|] == '.' && t[|digits| + 1..] == tail;
    TenthsFixed(m);
    NoScale(Fixed(digits, [DigitChar(m % 10)]), rest);
  }

  lemma NoScale(v: real, rest: string)
    requires EndsNumber(rest)
    ensures Scaled(v, rest) == v
  {}

  lemma TenthsFixed(m: nat)
    ensures AllDigits(Digits(m / 10)) && AllDigits([DigitChar(m % 10)])
    ensures Fixed(Digits(m / 10), [DigitChar(m % 10)]) == m as real / 10.0
  {
    hide Digits, DigitsValue;
    DigitsMean(m / 10);
    OneDigit(m % 10, "");
    assert [DigitChar(m % 10)] + "" == [DigitChar(m % 10)];
    assert m == m / 10 * 10 + m % 10;
  }

  /** Reading a written rate gives the nearest tenth: the rate itself when it is whole tenths. */
  lemma RateReads(rate: real, rest: string)
    requires EndsNumber(rest)
    ensures Stof(RateText(rate) + rest) == Some(Tenths(rate) as real / 10.0)
  {
    hide Magnitude, Digits, DigitsValue, DigitRun;
    var t := Tenths(rate);
    var m := Abs(t);
    DigitsMean(m / 10);
    var digits, tail := Digits(m / 10), "." + ([DigitChar(m % 10)] + rest);
    var s := (if t < 0 then "-" + digits else digits) + tail;
    assert RateText(rate) + rest == s;
    SignStripped(t < 0, digits, tail);
    MagnitudeReads(m, rest);
    assert IsDigit(digits[0]);
    assert s[0] == if t < 0 then '-' else digits[0];
  }

  lemma OneDigit(d: nat, rest: string)
    requires d < 10 && EndsNumber(rest)
    ensures DigitRun([DigitChar(d)] + rest) == 1
    ensures ([DigitChar(d)] + rest)[..1] == [DigitChar(d)] && DigitsValue([DigitChar(d)]) == d && Power10(1) == 10
  {
    RunEnds([DigitChar(d)], rest);
    assert [DigitChar(d)][..0] == "";
    assert Power10(0) == 1;
  }

  /** A number's text is a sign, digits and at most a point: none of it needs quoting. */
  predicate NumberChars(s: string) {
    s != "" && forall i :: 0 <= i < |s| ==> IsDigit(s[i]) || s[i] == '-' || s[i] == '.'
  }

  lemma NumbersArePlain(n: int, rate: real)
    ensures NumberChars(Decimal(n)) && NumberChars(RateText(rate))
  {
    hide Digits, DigitsValue, Tenths;
    DigitsMean(Abs(n));
    var t := Tenths(rate);
    DigitsMean(Abs(t) / 10);
  }
}
