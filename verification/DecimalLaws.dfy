/** Decimal text digit by digit: what the texts look like, and what every text that starts like a number is
    read as, written by this program or not. */
module DecimalLaws {
  import opened Wrappers
  import opened DecimalText
  import opened Arithmetic

  // ----- writing -----------------------------------------------------------------------------

  function Numeral(d: nat): char
    requires d < 10
  {
    "0123456789"[d]
  }

  /** The digits of a number stand where they count, the highest first, without a leading zero. */
  lemma {:induction false} DigitsPlaced(n: nat, k: nat)
    requires k < |Digits(n)|
    ensures Digits(n)[|Digits(n)| - 1 - k] == Numeral(n / Power10(k) % 10)
    ensures |Digits(n)| > 1 ==> Digits(n)[0] != '0' && n >= 10
    ensures n < Power10(|Digits(n)|)
    decreases n
  {
    hide *;
    DigitsUnfold(n);
    DigitIs(n % 10);
    Powers(0);
    Powers(k);
    if n < 10 {
      Powers(1);
    } else {
      FirstDigit(n / 10);
      Powers(|Digits(n / 10)|);
      DigitsPlaced(n / 10, if k == 0 then 0 else k - 1);
      if k > 0 {
        Powers(k - 1);
        DivideTwice(n, 10, Power10(k - 1));
      }
    }
  }

  lemma DigitsUnfold(n: nat)
    ensures Digits(n) != [] && (n < 10 ==> Digits(n) == [DigitChar(n)])
    ensures n >= 10 ==> Digits(n) == Digits(n / 10) + [DigitChar(n % 10)] && Digits(n / 10) != []
  {
    hide DigitChar;
  }

  lemma Powers(k: nat)
    ensures Power10(0) == 1 && Power10(k + 1) == 10 * Power10(k) && (k > 0 ==> Power10(k) == 10 * Power10(k - 1))
  {}

  lemma DigitIs(d: nat)
    requires d < 10
    ensures DigitChar(d) == Numeral(d)
  {}

  lemma FirstDigit(n: nat)
    requires n > 0
    ensures Digits(n)[0] != '0'
  {}

  /** A rate is written to the nearest tenth, halves up: a sign if it is negative, the whole part, a point and
      one digit. */
  lemma RateForm(rate: real)
    ensures var t := Tenths(rate);
      && t as real - 0.5 <= rate * 10.0 < t as real + 0.5
      && RateText(rate) == (if t < 0 then "-" else "") + Digits(Abs(t) / 10) + "." + [Numeral(Abs(t) % 10)]
  {
    DigitIs(Abs(Tenths(rate)) % 10);
  }

  lemma TextExamples()
    ensures Decimal(0) == "0" && Decimal(120) == "120" && Decimal(-7) == "-7"
    ensures RateText(97.5) == "97.5" && RateText(100.0) == "100.0" && RateText(-0.25) == "-0.2"
  {
    DigitsExamples();
    assert Tenths(97.5) == 975 && Tenths(100.0) == 1000 && Tenths(-0.25) == -2;
    hide Digits, Tenths;
  }

  lemma DigitsExamples()
    ensures Digits(0) == "0" && Digits(7) == "7" && Digits(97) == "97" && Digits(10) == "10" && Digits(120) == "120"
  {
    assert Digits(12) == "12";
  }

  // ----- reading -----------------------------------------------------------------------------

  predicate EndsDigits(rest: string) {
    rest == "" || !IsDigit(rest[0])
  }

  lemma RunSplits(digits: string, rest: string)
    requires AllDigits(digits) && EndsDigits(rest)
    ensures DigitRun(digits + rest) == |digits|
    ensures (digits + rest)[..|digits|] == digits && (digits + rest)[|digits|..] == rest
  {
    RunEnds(digits, rest);
  }

  /** A 32-bit integer is read from any text that starts with an optional minus and digits, if their value is
      in range; what follows is not looked at. */
  lemma FromCharsReads(negative: bool, digits: string, rest: string)
    requires digits != "" && AllDigits(digits) && EndsDigits(rest)
    ensures var n := if negative then 0 - DigitsValue(digits) else DigitsValue(digits);
      FromChars((if negative then "-" else "") + (digits + rest)) ==
      if -2147483648 <= n <= 2147483647 then Some(n) else None
  {
    SignTaken(negative, digits, rest);
    RunSplits(digits, rest);
    hide DigitRun, DigitsValue, AllDigits, EndsDigits, Unsigned, Signed;
    var t := digits + rest;
    assert t[..|digits|] == digits;
  }

  lemma SignTaken(negative: bool, digits: string, rest: string)
    requires digits != "" && AllDigits(digits)
    ensures var s := (if negative then "-" else "") + (digits + rest);
      Unsigned(s) == digits + rest && forall n: nat :: Signed(s, n) == if negative then 0 - n else n
  {
    var s := (if negative then "-" else "") + (digits + rest);
    assert IsDigit(digits[0]);
    if !negative {
      assert s == digits + rest;
    } else {
      assert s[1..] == digits + rest;
    }
  }

  /** And from no other text. */
  lemma FromCharsRefuses(s: string)
    requires var t := if s != "" && s[0] == '-' then s[1..] else s; t == "" || !('0' <= t[0] <= '9')
    ensures FromChars(s) == None
  {}

  predicate Space(c: char) {
    c == ' ' || c == '\t' || c == '\n' || c == '\r' || c == '\U{0B}' || c == '\U{0C}'
  }

  predicate Spaces(s: string) {
    forall i :: 0 <= i < |s| ==> Space(s[i])
  }

  lemma {:induction false} SpacesSkipped(spaces: string, rest: string)
    requires Spaces(spaces) && (rest == "" || !IsSpace(rest[0]))
    ensures SkipSpace(spaces + rest) == rest
  {
    if spaces == "" {
      assert spaces + rest == rest;
    } else {
      assert (spaces + rest)[1..] == spaces[1..] + rest;
      SpacesSkipped(spaces[1..], rest);
    }
  }

  /** The parts of a decimal number: digits, perhaps a point and more digits, perhaps an exponent. */
  datatype Exponent = NoExponent | Exponent(mark: char, sign: string, digits: string)

  datatype Figure = Figure(sign: string, whole: string, point: bool, fraction: string, exponent: Exponent)

  predicate IsSign(s: string) {
    s == "" || s == "-" || s == "+"
  }

  predicate IsMark(c: char) {
    c == 'e' || c == 'E'
  }

  predicate ExponentOk(e: Exponent) {
    e.Exponent? ==> IsMark(e.mark) && IsSign(e.sign) && e.digits != "" && AllDigits(e.digits)
  }

  predicate FigureOk(f: Figure) {
    && IsSign(f.sign) && AllDigits(f.whole) && AllDigits(f.fraction)
    && (!f.point ==> f.fraction == "") && f.whole + f.fraction != ""
    && ExponentOk(f.exponent)
  }

  function ExponentText(e: Exponent): string {
    match e
    case NoExponent => ""
    case Exponent(mark, sign, digits) => [mark] + (sign + digits)
  }

  function FigureText(f: Figure, rest: string): string {
    f.sign + (f.whole + ((if f.point then "." else "") + (f.fraction + (ExponentText(f.exponent) + rest))))
  }

  function Factor(e: Exponent): real
    requires ExponentOk(e)
  {
    match e
    case NoExponent => 1.0
    case Exponent(_, sign, digits) =>
      var p := Power10(DigitsValue(digits)) as real;
      if sign == "-" then 1.0 / p else p
  }

  function Times(a: real, b: real): real { a * b }

  function FigureValue(f: Figure): real
    requires FigureOk(f)
  {
    var v := Times(Fixed(f.whole, f.fraction), Factor(f.exponent));
    if f.sign == "-" then -v else v
  }

  lemma {:induction false} DigitsJoined(a: string, b: string)
    requires AllDigits(a) && AllDigits(b)
    ensures AllDigits(a + b) && DigitsValue(a + b) == DigitsValue(a) * Power10(|b|) + DigitsValue(b)
    decreases |b|
  {
    if b == "" {
      assert a + b == a;
    } else {
      var n := |b| - 1;
      assert (a + b)[..|a + b| - 1] == a + b[..n] && (a + b)[|a + b| - 1] == b[n];
      DigitsJoined(a, b[..n]);
      TenTimes(DigitsValue(a), Power10(n));
    }
  }

  lemma TenTimes(v: nat, p: nat)
    ensures 10 * (v * p) == v * (10 * p)
  {}

  /** The digits before and behind the point are those of the number times ten for each behind it. */
  lemma FixedMeans(whole: string, fraction: string)
    requires AllDigits(whole) && AllDigits(fraction)
    ensures AllDigits(whole + fraction)
    ensures Times(Fixed(whole, fraction), Power10(|fraction|) as real) == DigitsValue(whole + fraction) as real
  {
    hide *;
    DigitsJoined(whole, fraction);
    FixedIs(whole, fraction);
    Over(DigitsValue(whole), DigitsValue(fraction), Power10(|fraction|));
  }

  /** The sum of a whole number and a fraction. */
  function Sum(a: nat, b: nat, p: nat): real
    requires p > 0
  {
    a as real + b as real / p as real
  }

  lemma FixedIs(whole: string, fraction: string)
    requires AllDigits(whole) && AllDigits(fraction)
    ensures Fixed(whole, fraction) == Sum(DigitsValue(whole), DigitsValue(fraction), Power10(|fraction|))
  {
    hide DigitsValue, Power10;
  }

  lemma Over(a: nat, b: nat, p: nat)
    requires p > 0
    ensures Times(Sum(a, b, p), p as real) == (a * p + b) as real
  {
    OverCommon(a as real, b as real, p as real);
    RealProduct(a, p);
  }

  lemma RealProduct(a: nat, p: nat)
    ensures (a * p) as real == a as real * p as real
  {}

  lemma OverCommon(a: real, b: real, p: real)
    requires p > 0.0
    ensures (a + b / p) * p == a * p + b
  {
    var q := b / p;
    assert q * p == b;
    assert (a + q) * p == a * p + q * p;
  }

  /** What does not continue a number. */
  predicate EndsFigure(f: Figure, rest: string) {
    rest == "" || (
      && !IsDigit(rest[0])
      && (f.exponent.NoExponent? ==> !IsMark(rest[0]) && (f.point || rest[0] != '.')))
  }

  lemma ScaleReads(e: Exponent, rest: string)
    requires ExponentOk(e) && (rest == "" || !IsDigit(rest[0]))
    requires e.NoExponent? ==> rest == "" || !IsMark(rest[0])
    ensures Scale(ExponentText(e) + rest) == Factor(e)
  {
    match e {
      case NoExponent => assert "" + rest == rest;
      case Exponent(mark, sign, digits) => ExponentReads(mark, sign, digits, rest);
    }
  }

  lemma ExponentReads(mark: char, sign: string, digits: string, rest: string)
    requires IsMark(mark) && IsSign(sign) && digits != "" && AllDigits(digits) && (rest == "" || !IsDigit(rest[0]))
    ensures Scale([mark] + (sign + digits) + rest) == Factor(Exponent(mark, sign, digits))
  {
    var t := [mark] + (sign + digits) + rest;
    var more := digits + rest;
    assert IsDigit(digits[0]);
    if sign == "" {
      assert t == [mark] + more;
    } else {
      assert t == [mark] + (sign + more);
      assert t[1] == sign[0] && t[2..] == more;
    }
    hide Power10, DigitsValue;
    RunSplits(digits, rest);
  }

  lemma AfterFraction(f: Figure, rest: string)
    requires FigureOk(f) && EndsFigure(f, rest)
    ensures var tail := ExponentText(f.exponent) + rest;
      EndsDigits(tail) && (!f.point ==> tail == "" || tail[0] != '.')
  {
    if f.exponent.Exponent? {
      assert (ExponentText(f.exponent) + rest)[0] == f.exponent.mark;
    } else {
      assert "" + rest == rest;
    }
  }

  lemma MantissaReads(whole: string, point: bool, fraction: string, tail: string)
    requires AllDigits(whole) && AllDigits(fraction) && whole + fraction != "" && (!point ==> fraction == "")
    requires EndsDigits(tail) && (!point ==> tail == "" || tail[0] != '.')
    ensures Mantissa(whole + ((if point then "." else "") + (fraction + tail))) == Some((Fixed(whole, fraction), tail))
  {
    hide Fixed;
    if point {
      PointReads(whole, fraction, tail);
    } else {
      assert "" + ("" + tail) == tail;
      WholeReads(whole, tail);
    }
  }

  lemma MantissaAt(t: string, n: nat, u: string, k: nat)
    requires n == DigitRun(t) && n < |t| && t[n] == '.' && u == t[n + 1..] && k == DigitRun(u) && n + k > 0
    ensures Mantissa(t) == Some((Fixed(t[..n], u[..k]), u[k..]))
  {
    hide DigitRun, Fixed;
  }

  lemma PointReads(whole: string, fraction: string, tail: string)
    requires AllDigits(whole) && AllDigits(fraction) && whole + fraction != "" && EndsDigits(tail)
    ensures Mantissa(whole + ("." + (fraction + tail))) == Some((Fixed(whole, fraction), tail))
  {
    var u := fraction + tail;
    assert EndsDigits("." + u);
    hide *;
    RunSplits(whole, "." + u);
    RunSplits(fraction, tail);
    var t := whole + ("." + u);
    assert t[|whole| + 1..] == u;
    MantissaAt(t, |whole|, u, |fraction|);
  }

  lemma WholeReads(whole: string, tail: string)
    requires AllDigits(whole) && whole != "" && EndsDigits(tail) && (tail == "" || tail[0] != '.')
    ensures Mantissa(whole + tail) == Some((Fixed(whole, ""), tail))
  {
    hide DigitRun, Fixed;
    RunSplits(whole, tail);
  }

  /** The number after its sign. */
  function Bare(f: Figure, rest: string): string {
    f.whole + ((if f.point then "." else "") + (f.fraction + (ExponentText(f.exponent) + rest)))
  }

  lemma FigureEnds(f: Figure, rest: string)
    requires FigureOk(f) && EndsFigure(f, rest)
    ensures ExponentOk(f.exponent) && (rest == "" || !IsDigit(rest[0]))
    ensures f.exponent.NoExponent? ==> rest == "" || !IsMark(rest[0])
    ensures AllDigits(f.whole) && AllDigits(f.fraction) && f.whole + f.fraction != "" && (!f.point ==> f.fraction == "")
    ensures FigureText(f, rest) == f.sign + Bare(f, rest)
    ensures IsSign(f.sign) && Bare(f, rest) != "" && (Bare(f, rest)[0] == '.' || IsDigit(Bare(f, rest)[0]))
  {
    hide ExponentText;
  }

  lemma BareReads(f: Figure, rest: string)
    requires FigureOk(f) && EndsFigure(f, rest)
    ensures Magnitude(Bare(f, rest)) == Some(Scaled(Fixed(f.whole, f.fraction), ExponentText(f.exponent) + rest))
  {
    FigureEnds(f, rest);
    AfterFraction(f, rest);
    hide Mantissa, Scaled, ExponentText, Fixed, DigitsValue, Power10;
    MantissaReads(f.whole, f.point, f.fraction, ExponentText(f.exponent) + rest);
  }

  lemma ValueIs(f: Figure, rest: string)
    requires FigureOk(f) && EndsFigure(f, rest)
    ensures var v := Scaled(Fixed(f.whole, f.fraction), ExponentText(f.exponent) + rest);
      FigureValue(f) == if f.sign == "-" then -v else v
  {
    ScaleReads(f.exponent, rest);
    var tail := ExponentText(f.exponent) + rest;
    hide ExponentText, Scale, Factor, Fixed;
    ScaledIs(Fixed(f.whole, f.fraction), tail, Factor(f.exponent));
  }

  lemma ScaledIs(v: real, tail: string, factor: real)
    requires Scale(tail) == factor
    ensures Scaled(v, tail) == Times(v, factor)
  {
    hide Scale;
  }

  /** A float is read from any text of blanks, a sign and a decimal number, with or without point and
      exponent; what follows is not looked at. */
  lemma StofReads(spaces: string, f: Figure, rest: string)
    requires Spaces(spaces) && FigureOk(f) && EndsFigure(f, rest)
    ensures Stof(spaces + FigureText(f, rest)) == Some(FigureValue(f))
  {
    hide *;
    FigureEnds(f, rest);
    BareReads(f, rest);
    ValueIs(f, rest);
    SignReads(spaces, f.sign, Bare(f, rest));
  }

  lemma SignReads(spaces: string, sign: string, number: string)
    requires Spaces(spaces) && IsSign(sign) && number != "" && (number[0] == '.' || IsDigit(number[0]))
    ensures Stof(spaces + (sign + number)) ==
      match Magnitude(number) case None => None case Some(v) => Some(if sign == "-" then -v else v)
  {
    hide Magnitude, SkipSpace;
    var text := sign + number;
    SpacesSkipped(spaces, text);
    if sign != "" {
      assert text[1..] == number;
    } else {
      assert text == number;
    }
  }

  lemma FirstOfNumber(f: Figure, tail: string)
    requires FigureOk(f)
    ensures var number := f.whole + ((if f.point then "." else "") + (f.fraction + tail));
      number != "" && (number[0] == '.' || IsDigit(number[0]))
  {}

  /** And from no text without a digit where the number should be. */
  lemma StofRefuses(spaces: string, rest: string)
    requires Spaces(spaces) && (rest == "" || !Space(rest[0]))
    requires var t := if rest != "" && (rest[0] == '-' || rest[0] == '+') then rest[1..] else rest;
      var u := if t != "" && t[0] == '.' then t[1..] else t;
      u == "" || !('0' <= u[0] <= '9')
    ensures Stof(spaces + rest) == None
  {
    SpacesSkipped(spaces, rest);
    var t := if rest != "" && (rest[0] == '-' || rest[0] == '+') then rest[1..] else rest;
    NoMantissa(t);
    hide SkipSpace, Mantissa;
  }

  lemma NoMantissa(t: string)
    requires var u := if t != "" && t[0] == '.' then t[1..] else t; u == "" || !('0' <= u[0] <= '9')
    ensures Mantissa(t) == None
  {
    hide Fixed;
    assert DigitRun(t) == 0;
    if t != "" && t[0] == '.' {
      assert t[0 + 1..] == t[1..] && DigitRun(t[1..]) == 0;
    }
  }
}
