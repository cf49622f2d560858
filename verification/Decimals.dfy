/** Decimal text: what the formatting macros print and what `str::parse` reads back. */
module Decimals {
  import opened Text

  function DigitChar(d: nat): (c: char)
    requires d < 10
    ensures IsDigit(c) && DigitValue(c) == d
  {
    '0' + d as char
  }

  function DigitValue(c: char): nat
    requires IsDigit(c)
  {
    (c - '0') as nat
  }

  predicate AllDigits(s: string) {
    forall i | 0 <= i < |s| :: IsDigit(s[i])
  }

  function DigitsValue(s: string): nat
    requires AllDigits(s)
  {
    if s == [] then 0 else DigitsValue(s[..|s| - 1]) * 10 + DigitValue(s[|s| - 1])
  }

  function Pow10(k: nat): (p: nat)
    ensures p >= 1
  {
    if k == 0 then 1 else 10 * Pow10(k - 1)
  }

  /** `{}` on an unsigned integer. */
  function NatText(n: nat): (s: string)
    ensures s != [] && AllDigits(s) && DigitsValue(s) == n
  {
    if n < 10 then [DigitChar(n)]
    else
      var s := NatText(n / 10) + [DigitChar(n % 10)];
      assert s[..|s| - 1] == NatText(n / 10);
      s
  }

  /** The last `width` digits of `n`. */
  function Padded(n: nat, width: nat): (s: string)
    ensures |s| == width && AllDigits(s)
    ensures n < Pow10(width) ==> DigitsValue(s) == n
  {
    if width == 0 then []
    else
      var s := Padded(n / 10, width - 1) + [DigitChar(n % 10)];
      assert s[..|s| - 1] == Padded(n / 10, width - 1);
      s
  }

  /** `{:0width}`: zero-padded, and longer when the number needs it. */
  function ZeroPadded(n: nat, width: nat): (s: string)
    ensures AllDigits(s) && DigitsValue(s) == n
    ensures n < Pow10(width) ==> |s| == width
  {
    if n < Pow10(width) then Padded(n, width) else NatText(n)
  }

  function Abs(q: int): nat {
    if q < 0 then -q else q
  }

  function SignText(q: int): string {
    if q < 0 then "-" else ""
  }

  function IntText(i: int): string {
    SignText(i) + NatText(Abs(i))
  }

  /** `{:.4}` on a number of ten-thousandths. */
  function FixedText(q: int): string {
    SignText(q) + NatText(Abs(q) / 10000) + "." + Padded(Abs(q) % 10000, 4)
  }

  /** `number_text`: whole numbers without a fraction, others as short as they can be. Numbers
      that need more than four decimals are cut to four here. */
  function NumberText(v: real): string {
    if v.Floor as real == v then IntText(v.Floor)
    else TrimEnd(FixedText((v * 10000.0).Floor), c => c == '0')
  }

  // ---------------------------------------------------------------------- reading

  /** The value of the digits after a point. */
  function Fraction(s: string): real
    requires AllDigits(s)
  {
    DigitsValue(s) as real / Pow10(|s|) as real
  }

  function WithSign(q: int, v: real): real {
    if q < 0 then -v else v
  }

  /** Digits with at most one point, at least one digit. */
  function ParseUnsigned(s: string): Option<real> {
    var parts := Split(s, '.');
    if |parts| == 1 && AllDigits(parts[0]) && parts[0] != [] then
      Some(DigitsValue(parts[0]) as real)
    else if |parts| == 2 && AllDigits(parts[0]) && AllDigits(parts[1]) && parts[0] + parts[1] != [] then
      Some(DigitsValue(parts[0]) as real + Fraction(parts[1]))
    else None
  }

  function Signed(s: string, read: string -> Option<real>): Option<real> {
    if s != [] && s[0] == '-' then
      match read(s[1..]) { case Some(v) => Some(-v) case None => None }
    else if s != [] && s[0] == '+' then read(s[1..])
    else read(s)
  }

  function Scaled(v: real, exponent: int): real {
    if exponent >= 0 then v * Pow10(exponent) as real else v / Pow10(-exponent) as real
  }

  /** `str::parse::<f64>` on texts that name a finite number, read exactly. */
  function ParseFloat(s: string): Option<real> {
    var parts := Split(Lower(s), 'e');
    if |parts| == 1 then Signed(s, ParseUnsigned)
    else if |parts| == 2 then
      var e := parts[1];
      var digits := if e != [] && (e[0] == '-' || e[0] == '+') then e[1..] else e;
      match Signed(parts[0], ParseUnsigned) {
        case Some(v) =>
          if digits != [] && AllDigits(digits) then
            Some(Scaled(v, if e[0] == '-' then -(DigitsValue(digits) as int) else DigitsValue(digits)))
          else None
        case None => None
      }
    else None
  }

  // ------------------------------------------------------------------- round trips

  lemma SplitTwo(a: string, b: string, c: char)
    requires Free(a, c) && Free(b, c)
    ensures Split(a + [c] + b, c) == [a, b]
  {
    SplitCons(a, c, b);
    SplitFree(b, c);
  }

  /** Text made of digits, points and a sign holds no exponent letter. */
  lemma PlainNumber(s: string)
    requires forall c | c in s :: IsDigit(c) || c == '.' || c == '-'
    ensures ParseFloat(s) == Signed(s, ParseUnsigned)
  {
    forall i | 0 <= i < |s| ensures Lower(s)[i] != 'e' { assert s[i] in s; }
  }

  lemma ParseUnsignedDecimal(whole: string, fraction: string)
    requires AllDigits(whole) && whole != [] && AllDigits(fraction)
    ensures ParseUnsigned(whole + "." + fraction) == Some(DigitsValue(whole) as real + Fraction(fraction))
  {
    SplitTwo(whole, fraction, '.');
  }

  predicate DigitsAndPoints(s: string) {
    forall c | c in s :: IsDigit(c) || c == '.'
  }

  lemma SignedPlain(q: int, body: string)
    requires DigitsAndPoints(body)
    ensures ParseFloat(SignText(q) + body) == Signed(SignText(q) + body, ParseUnsigned)
  {
    var s := SignText(q) + body;
    forall c | c in s ensures IsDigit(c) || c == '.' || c == '-' {
      assert c in SignText(q) || c in body;
    }
    PlainNumber(s);
  }

  lemma SignedValue(q: int, body: string, v: real)
    requires body != [] && IsDigit(body[0]) && ParseUnsigned(body) == Some(v)
    ensures Signed(SignText(q) + body, ParseUnsigned) == Some(WithSign(q, v))
  {
    var s := SignText(q) + body;
    assert if q < 0 then s[0] == '-' && s[1..] == body else s == body;
  }

  lemma ParseSigned(q: int, body: string, v: real)
    requires body != [] && IsDigit(body[0]) && DigitsAndPoints(body) && ParseUnsigned(body) == Some(v)
    ensures ParseFloat(SignText(q) + body) == Some(WithSign(q, v))
  {
    SignedPlain(q, body);
    SignedValue(q, body, v);
  }

  lemma Rejoin(a: string, b: string, c: string, d: string)
    ensures a + b + c + d == a + (b + c + d)
  {
  }

  lemma DecimalBody(whole: string, fraction: string)
    requires AllDigits(whole) && whole != [] && AllDigits(fraction)
    ensures (whole + "." + fraction)[0] == whole[0] && DigitsAndPoints(whole + "." + fraction)
  {
    forall c | c in whole + "." + fraction ensures IsDigit(c) || c == '.' {
      assert c in whole || c == '.' || c in fraction;
    }
  }

  lemma ParseDecimal(q: int, whole: string, fraction: string, v: real)
    requires AllDigits(whole) && whole != [] && AllDigits(fraction)
    requires v == DigitsValue(whole) as real + Fraction(fraction)
    ensures ParseFloat(SignText(q) + whole + "." + fraction) == Some(WithSign(q, v))
  {
    var body := whole + "." + fraction;
    Rejoin(SignText(q), whole, ".", fraction);
    DecimalBody(whole, fraction);
    ParseUnsignedDecimal(whole, fraction);
    ParseSigned(q, body, v);
  }

  lemma ParseWhole(i: int)
    ensures ParseFloat(IntText(i)) == Some(i as real)
  {
    var body := NatText(Abs(i));
    SplitFree(body, '.');
    ParseSigned(i, body, Abs(i) as real);
  }

  lemma PaddedFraction(m: nat)
    requires m < 10000
    ensures Fraction(Padded(m, 4)) == m as real / 10000.0
  {
    Pow10Of4();
  }

  lemma WholeAndRest(n: nat)
    ensures (n / 10000) as real + (n % 10000) as real / 10000.0 == n as real / 10000.0
  {
    assert n == 10000 * (n / 10000) + n % 10000;
  }

  lemma Negated(q: int)
    ensures WithSign(q, Abs(q) as real / 10000.0) == q as real / 10000.0
  {
  }

  /** A number of ten-thousandths, from its whole part and its four digits. */
  lemma TenThousandths(n: nat)
    ensures n as real / 10000.0 == DigitsValue(NatText(n / 10000)) as real + Fraction(Padded(n % 10000, 4))
  {
    PaddedFraction(n % 10000);
    WholeAndRest(n);
  }

  lemma Pow10Of4()
    ensures Pow10(4) == 10000
  {
    assert Pow10(1) == 10;
    assert Pow10(2) == 100;
    assert Pow10(3) == 1000;
  }

  lemma SignedDecimal(q: int, whole: string, fraction: string)
    requires AllDigits(whole) && whole != [] && AllDigits(fraction)
    requires Abs(q) as real / 10000.0 == DigitsValue(whole) as real + Fraction(fraction)
    ensures ParseFloat(SignText(q) + whole + "." + fraction) == Some(q as real / 10000.0)
  {
    ParseDecimal(q, whole, fraction, Abs(q) as real / 10000.0);
    Negated(q);
  }

  /** What `{:.4}` prints is read back exactly. */
  lemma FixedRoundTrip(q: int)
    ensures ParseFloat(FixedText(q)) == Some(q as real / 10000.0)
  {
    TenThousandths(Abs(q));
    SignedDecimal(q, NatText(Abs(q) / 10000), Padded(Abs(q) % 10000, 4));
  }

  lemma CancelTen(v: nat, p: nat)
    requires p >= 1
    ensures (v * 10) as real / (10 * p) as real == v as real / p as real
  {
    var x := v as real / p as real;
    assert x * p as real == v as real;
    assert x * (10 * p) as real == (v * 10) as real;
  }

  /** Trailing zeros of a fraction do not change its value. */
  lemma {:induction false} ZerosAreFree(fraction: string)
    requires AllDigits(fraction)
    ensures AllDigits(TrimEnd(fraction, c => c == '0'))
    ensures Fraction(TrimEnd(fraction, c => c == '0')) == Fraction(fraction)
  {
    if fraction != [] && fraction[|fraction| - 1] == '0' {
      var rest := fraction[..|fraction| - 1];
      ZerosAreFree(rest);
      CancelTen(DigitsValue(rest), Pow10(|rest|));
    }
  }

  lemma {:induction false} TrimEndOfConcat(a: string, b: string, white: char -> bool)
    requires TrimEnd(b, white) != []
    ensures TrimEnd(a + b, white) == a + TrimEnd(b, white)
  {
    if white(b[|b| - 1]) {
      TrimEndOfConcat(a, b[..|b| - 1], white);
      assert (a + b)[..|a + b| - 1] == a + b[..|b| - 1];
    }
  }

  lemma Unscaled(q: int)
    ensures (q as real / 10000.0 * 10000.0).Floor == q
  {
  }

  lemma TrimmedValue(q: int)
    ensures var fraction := TrimEnd(Padded(Abs(q) % 10000, 4), c => c == '0');
            AllDigits(fraction)
            && Abs(q) as real / 10000.0 == DigitsValue(NatText(Abs(q) / 10000)) as real + Fraction(fraction)
  {
    TenThousandths(Abs(q));
    ZerosAreFree(Padded(Abs(q) % 10000, 4));
  }

  lemma ParseTrimmed(q: int)
    ensures ParseFloat(TrimEnd(FixedText(q), c => c == '0')) == Some(q as real / 10000.0)
  {
    TrimmedFixed(q);
    TrimmedValue(q);
    SignedDecimal(q, NatText(Abs(q) / 10000), TrimEnd(Padded(Abs(q) % 10000, 4), c => c == '0'));
  }

  /** `number_text` is read back exactly, for every number of at most four decimals. */
  lemma NumberRoundTrip(q: int)
    ensures ParseFloat(NumberText(q as real / 10000.0)) == Some(q as real / 10000.0)
  {
    var v := q as real / 10000.0;
    Unscaled(q);
    if v.Floor as real == v {
      ParseWhole(v.Floor);
    } else {
      ParseTrimmed(q);
    }
  }

  lemma TrimPastFront(front: string, fraction: string)
    ensures TrimEnd(front + ("." + fraction), c => c == '0') == front + ("." + TrimEnd(fraction, c => c == '0'))
  {
    DotStops(fraction);
    TrimEndOfConcat(front, "." + fraction, c => c == '0');
  }

  lemma TrimmedFixed(q: int)
    ensures TrimEnd(FixedText(q), c => c == '0')
         == SignText(q) + NatText(Abs(q) / 10000) + "." + TrimEnd(Padded(Abs(q) % 10000, 4), c => c == '0')
  {
    var front, fraction := SignText(q) + NatText(Abs(q) / 10000), Padded(Abs(q) % 10000, 4);
    assert FixedText(q) == front + ("." + fraction);
    TrimPastFront(front, fraction);
    assert front + ("." + TrimEnd(fraction, c => c == '0')) == front + "." + TrimEnd(fraction, c => c == '0');
  }

  lemma {:induction false} DotStops(fraction: string)
    ensures TrimEnd("." + fraction, c => c == '0') == "." + TrimEnd(fraction, c => c == '0')
  {
    if fraction != [] {
      var s := "." + fraction;
      assert s[|s| - 1] == fraction[|fraction| - 1];
      assert s[..|s| - 1] == "." + fraction[..|fraction| - 1];
      DotStops(fraction[..|fraction| - 1]);
    }
  }

  predicate NumberChar(c: char) {
    IsDigit(c) || c == '.' || c == '-'
  }

  lemma NumberTextPlain(v: real)
    ensures NumberText(v) != [] && forall i | 0 <= i < |NumberText(v)| :: NumberChar(NumberText(v)[i])
  {
    if v.Floor as real != v {
      var q := (v * 10000.0).Floor;
      TrimmedFixed(q);
      var s := FixedText(q);
      var after := TrimEndCuts(s, c => c == '0');
      assert forall i | 0 <= i < |NumberText(v)| :: NumberText(v)[i] == s[i];
    }
  }
}
