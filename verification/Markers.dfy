/** The receipt marker "TG:phone:timestamp:quantity": its printer
    (src/erpnext/purchase_receipt.rs), its Rust reader (src/erpdb/werka_home.rs) and its SQL reader
    (src/erpdb/reader_sql.rs). */
module Markers {
  import opened Text
  import opened Decimals

  const PREFIX := "TG:"

  function LastPart(s: string, c: char): string {
    var parts := Split(s, c);
    parts[|parts| - 1]
  }

  /** `parse_telegram_receipt_marker_qty`. */
  function RustMarkerQty(note: string): Option<real> {
    var trimmed := Trim(note);
    if PREFIX <= trimmed then ParseFloat(Trim(LastPart(trimmed, ':'))) else None
  }

  /** REGEXP '^-?[0-9]+(\\.[0-9]+)?$'. */
  predicate SqlNumber(s: string) {
    var body := if s != [] && s[0] == '-' then s[1..] else s;
    var parts := Split(body, '.');
    |parts| <= 2 && AllNumeric(parts)
  }

  predicate AllNumeric(parts: seq<string>) {
    forall i | 0 <= i < |parts| :: parts[i] != [] && AllDigits(parts[i])
  }

  const DECIMAL_MAX := 99999999999999.9999

  /** CAST(.. AS DECIMAL(18,4)): rounded half away from zero, clamped to the type's range. */
  function CastDecimal(v: real): real {
    var scaled := (if v < 0.0 then -v else v) * 10000.0 + 0.5;
    var magnitude := scaled.Floor as real / 10000.0;
    var bounded := if magnitude > DECIMAL_MAX then DECIMAL_MAX else magnitude;
    if v < 0.0 then -bounded else bounded
  }

  /** SUBSTRING_INDEX(note, ':', -1) when it is a number. */
  function SqlMarkerQty(note: string): Option<real> {
    var last := LastPart(note, ':');
    if SqlNumber(last) then
      match Signed(last, ParseUnsigned) { case Some(v) => Some(CastDecimal(v)) case None => None }
    else None
  }

  function BlankDefault(value: string, fallback: string): string {
    if Trim(value) == [] then fallback else Trim(value)
  }

  /** `telegram_receipt_marker`, for a quantity of ten-thousandths. */
  function TelegramMarker(phone: string, timestamp: string, q: int): string {
    PREFIX + BlankDefault(phone, "unknown") + ":" + timestamp + ":" + FixedText(q)
  }

  /** How a marker begins: a blank phone is written "unknown". */
  lemma MarkerBegins(phone: string, timestamp: string, q: int)
    ensures TelegramMarker(phone, timestamp, q)
         == "TG:" + (if Trim(phone) == "" then "unknown" else Trim(phone)) + ":" + timestamp + ":" + FixedText(q)
  {
  }

  lemma {:induction false} LastPartIs(front: string, tail: string, c: char)
    requires Free(tail, c)
    ensures LastPart(front + [c] + tail, c) == tail
  {
    var whole := front + [c] + tail;
    if front == [] {
      assert whole == [] + [c] + tail;
      SplitCons([], c, tail);
      SplitFree(tail, c);
    } else {
      LastPartIs(front[1..], tail, c);
      assert whole[1..] == front[1..] + [c] + tail;
    }
  }

  lemma FixedTextShape(q: int)
    ensures FixedText(q) != [] && forall i | 0 <= i < |FixedText(q)| :: NumberChar(FixedText(q)[i])
    ensures Free(FixedText(q), ':') && Tight(FixedText(q))
    ensures IsDigit(FixedText(q)[|FixedText(q)| - 1])
  {
  }

  lemma DecimalIsSqlNumber(q: int, whole: string, fraction: string)
    requires AllDigits(whole) && whole != [] && AllDigits(fraction) && fraction != []
    ensures SqlNumber(SignText(q) + (whole + "." + fraction))
  {
    var body := whole + "." + fraction;
    var s := SignText(q) + body;
    assert if q < 0 then s[0] == '-' && s[1..] == body else s == body && s[0] == whole[0];
    SplitTwo(whole, fraction, '.');
  }

  lemma FixedTextIsSqlNumber(q: int)
    ensures SqlNumber(FixedText(q))
  {
    var whole, fraction := NatText(Abs(q) / 10000), Padded(Abs(q) % 10000, 4);
    assert FixedText(q) == SignText(q) + (whole + "." + fraction);
    DecimalIsSqlNumber(q, whole, fraction);
  }

  lemma CastKeeps(q: int)
    requires -1_000_000_000_000_000_000 < q < 1_000_000_000_000_000_000
    ensures CastDecimal(q as real / 10000.0) == q as real / 10000.0
  {
    var v := q as real / 10000.0;
    var n := Abs(q);
    assert (if v < 0.0 then -v else v) * 10000.0 == n as real;
    assert (n as real + 0.5).Floor == n;
  }

  /** The last colon of a marker is the one before its quantity. */
  lemma MarkerTail(phone: string, timestamp: string, q: int)
    ensures var marker := TelegramMarker(phone, timestamp, q);
            Trim(marker) == marker && LastPart(marker, ':') == FixedText(q) && Trim(FixedText(q)) == FixedText(q)
  {
    var marker, tail := TelegramMarker(phone, timestamp, q), FixedText(q);
    var front := PREFIX + BlankDefault(phone, "unknown") + ":" + timestamp;
    FixedTextShape(q);
    assert marker == front + [':'] + tail;
    LastPartIs(front, tail, ':');
    assert Tight(marker) by { assert marker[0] == 'T' && marker[|marker| - 1] == tail[|tail| - 1]; }
    TrimOfTight(marker, IsWhite);
    TrimOfTight(tail, IsWhite);
  }

  /** Both readers return exactly the printed quantity, whatever the phone and timestamp texts. */
  lemma MarkerRoundTrip(phone: string, timestamp: string, q: int)
    ensures RustMarkerQty(TelegramMarker(phone, timestamp, q)) == Some(q as real / 10000.0)
    ensures -1_000_000_000_000_000_000 < q < 1_000_000_000_000_000_000 ==>
              SqlMarkerQty(TelegramMarker(phone, timestamp, q)) == Some(q as real / 10000.0)
  {
    MarkerTail(phone, timestamp, q);
    FixedRoundTrip(q);
    if -1_000_000_000_000_000_000 < q < 1_000_000_000_000_000_000 {
      FixedTextIsSqlNumber(q);
      SignedReads(q);
      CastKeeps(q);
    }
  }

  lemma SignedReads(q: int)
    ensures Signed(FixedText(q), ParseUnsigned) == Some(q as real / 10000.0)
  {
    FixedRoundTrip(q);
    FixedTextShape(q);
    var s := FixedText(q);
    forall c | c in s ensures IsDigit(c) || c == '.' || c == '-' {
      var i :| 0 <= i < |s| && s[i] == c;
      assert NumberChar(s[i]);
    }
    PlainNumber(s);
  }

  // ------------------------------------------------- where the two readers agree

  function Body(s: string): string {
    if s != [] && s[0] == '-' then s[1..] else s
  }

  function WholeDigits(s: string): string {
    Split(Body(s), '.')[0]
  }

  function FractionDigits(s: string): string {
    var parts := Split(Body(s), '.');
    if |parts| == 2 then parts[1] else ""
  }

  function ZeroChar(): char -> bool {
    c => c == '0'
  }

  /** Fits DECIMAL(18,4): no digit but zero past the fourth decimal, fourteen digits before the point. */
  predicate FitsDecimal(s: string)
    requires SqlNumber(s)
  {
    |TrimEnd(FractionDigits(s), ZeroChar())| <= 4 && DigitsValue(WholeDigits(s)) < 100_000_000_000_000
  }

  /** What the readers agree on, read off the text after the last colon: a number of the SQL grammar
      that fits the column, in a note with the prefix; or any other text, as long as a note with the
      prefix does not make it a float. */
  predicate ReadAlike(note: string) {
    var last := LastPart(note, ':');
    if SqlNumber(last) then PREFIX <= Trim(note) && FitsDecimal(last)
    else PREFIX <= Trim(note) ==> ParseFloat(Trim(last)) == None
  }

  // the value of a number of the SQL grammar

  function NumberValue(s: string): real
    requires SqlNumber(s)
  {
    DigitsValue(WholeDigits(s)) as real + Fraction(FractionDigits(s))
  }

  lemma NumberReads(s: string)
    requires SqlNumber(s)
    ensures ParseUnsigned(Body(s)) == Some(NumberValue(s))
  {
    var parts := Split(Body(s), '.');
    assert parts[0] != [] && AllDigits(parts[0]);
    if |parts| == 1 { assert Fraction("") == 0.0; }
  }

  lemma BodyChars(s: string)
    requires SqlNumber(s)
    ensures Body(s) != [] && DigitsAndPoints(Body(s))
    ensures IsDigit(Body(s)[0]) && IsDigit(Body(s)[|Body(s)| - 1])
  {
    var body := Body(s);
    var parts := Split(body, '.');
    JoinOfSplit(body, '.');
    assert parts[0] != [] && AllDigits(parts[0]);
    if |parts| == 1 {
      assert body == parts[0];
    } else {
      TwoParts(body, parts);
      assert parts[1] != [] && AllDigits(parts[1]);
      DecimalBody(parts[0], parts[1]);
    }
  }

  lemma TwoParts(body: string, parts: seq<string>)
    requires parts == Split(body, '.') && |parts| == 2
    ensures body == parts[0] + "." + parts[1]
  {
    JoinOfSplit(body, '.');
    assert parts[1..] == [parts[1]];
  }

  lemma NumberChars(s: string, c: char)
    requires SqlNumber(s) && c in s
    ensures IsDigit(c) || c == '.' || c == '-'
  {
    BodyChars(s);
    if s[0] == '-' { assert s == ['-'] + Body(s); }
  }

  lemma SqlNumberShape(s: string)
    requires SqlNumber(s)
    ensures s != [] && Tight(s) && (s[0] == '-' || IsDigit(s[0])) && IsDigit(s[|s| - 1])
    ensures ParseFloat(s) == Signed(s, ParseUnsigned)
  {
    BodyChars(s);
    forall c | c in s ensures IsDigit(c) || c == '.' || c == '-' { NumberChars(s, c); }
    PlainNumber(s);
  }

  function SignedValue(s: string): real
    requires SqlNumber(s)
  {
    if s != [] && s[0] == '-' then -NumberValue(s) else NumberValue(s)
  }

  lemma SqlNumberReads(s: string)
    requires SqlNumber(s)
    ensures Signed(s, ParseUnsigned) == Some(SignedValue(s)) && ParseFloat(Trim(s)) == Some(SignedValue(s))
  {
    SqlNumberShape(s);
    TrimOfTight(s, IsWhite);
    NumberReads(s);
  }

  // which values the cast keeps

  predicate Whole(v: real) {
    v.Floor as real == v
  }

  lemma RoundWhole(a: real)
    requires Whole(a * 10000.0)
    ensures (a * 10000.0 + 0.5).Floor as real / 10000.0 == a
  {
    assert (a * 10000.0 + 0.5).Floor == (a * 10000.0).Floor;
  }

  lemma TenThousandsWhole(n: int)
    ensures Whole(n as real / 10000.0 * 10000.0)
  {
    assert n as real / 10000.0 * 10000.0 == n as real;
  }

  lemma CastMagnitude(a: real)
    requires a >= 0.0
    ensures var m := (a * 10000.0 + 0.5).Floor as real / 10000.0;
            (if m > DECIMAL_MAX then DECIMAL_MAX else m) == a <==> Whole(a * 10000.0) && a <= DECIMAL_MAX
  {
    if Whole(a * 10000.0) { RoundWhole(a); }
    TenThousandsWhole((a * 10000.0 + 0.5).Floor);
    TenThousandsWhole(999999999999999999);
  }

  lemma CastKeepsExactly(v: real)
    ensures CastDecimal(v) == v
         <==> Whole((if v < 0.0 then -v else v) * 10000.0) && (if v < 0.0 then -v else v) <= DECIMAL_MAX
  {
    CastMagnitude(if v < 0.0 then -v else v);
  }

  // when a number of digits and a fraction is a whole number of ten-thousandths

  lemma {:induction false} Pow10Splits(a: nat, b: nat)
    ensures Pow10(a + b) == Pow10(a) * Pow10(b)
  {
    if a > 0 {
      Pow10Splits(a - 1, b);
      assert Pow10(a + b) == 10 * Pow10(a - 1 + b);
    }
  }

  lemma FractionBelowOne(s: string)
    requires AllDigits(s)
    ensures 0.0 <= Fraction(s) < 1.0
  {
    DigitsBelow(s);
    Quotient(DigitsValue(s), Pow10(|s|));
  }

  lemma Quotient(d: nat, p: nat)
    requires d < p
    ensures 0.0 <= d as real / p as real < 1.0
  {
    assert d as real / p as real * p as real == d as real;
  }

  lemma {:induction false} DigitsBelow(s: string)
    requires AllDigits(s)
    ensures DigitsValue(s) < Pow10(|s|)
  {
    if s != [] { DigitsBelow(s[..|s| - 1]); }
  }

  lemma ShortFraction(s: string)
    requires AllDigits(s) && |s| <= 4
    ensures Fraction(s) * 10000.0 == (DigitsValue(s) * Pow10(4 - |s|)) as real
  {
    Pow10Of4();
    Pow10Splits(|s|, 4 - |s|);
    Scale(DigitsValue(s), Pow10(|s|), Pow10(4 - |s|));
  }

  lemma Scale(d: nat, p: nat, q: nat)
    requires p >= 1
    ensures d as real / p as real * (p * q) as real == (d * q) as real
  {
    var x := d as real / p as real;
    assert x * p as real == d as real;
    assert x * (p * q) as real == x * p as real * q as real;
  }

  lemma LastDigit(s: string, k: nat, n: int)
    requires AllDigits(s) && s != [] && s[|s| - 1] != '0' && k >= 1
    ensures DigitsValue(s) != n * Pow10(k)
  {
    assert 0 < DigitValue(s[|s| - 1]) < 10;
    NotMultiple(DigitsValue(s[..|s| - 1]), DigitValue(s[|s| - 1]), Pow10(k - 1), n);
  }

  lemma NotMultiple(n: nat, d: nat, p: nat, m: int)
    requires 0 < d < 10
    ensures 10 * n + d != m * (10 * p)
  {
    assert m * (10 * p) == 10 * (m * p);
  }

  lemma LongFraction(s: string)
    requires AllDigits(s) && |s| > 4 && s[|s| - 1] != '0'
    ensures !Whole(Fraction(s) * 10000.0)
  {
    Pow10Of4();
    Pow10Splits(4, |s| - 4);
    var x := Fraction(s) * 10000.0;
    LastDigit(s, |s| - 4, x.Floor);
    QuotientTimes(DigitsValue(s), Pow10(|s| - 4));
  }

  /** A whole quotient divides. */
  lemma QuotientTimes(d: nat, p: nat)
    requires p >= 1
    ensures var x := d as real / (10000 * p) as real * 10000.0; Whole(x) ==> d == x.Floor * p
  {
    var x := d as real / (10000 * p) as real * 10000.0;
    Unscale(d, 10000, p);
    assert x.Floor as real * p as real == (x.Floor * p) as real;
  }

  lemma Unscale(d: nat, q: nat, p: nat)
    requires p >= 1 && q >= 1
    ensures d as real / (q * p) as real * q as real * p as real == d as real
  {
    var x := d as real / (q * p) as real;
    assert x * (q * p) as real == d as real;
    assert x * (q * p) as real == x * q as real * p as real;
  }

  lemma TrimmedDigits(s: string)
    requires AllDigits(s)
    ensures var t := TrimEnd(s, ZeroChar()); AllDigits(t) && Fraction(t) == Fraction(s)
  {
    ZerosAreFree(s);
    SameTrim(s);
  }

  lemma {:induction false} SameTrim(s: string)
    ensures TrimEnd(s, ZeroChar()) == TrimEnd(s, c => c == '0')
  {
    if s != [] && s[|s| - 1] == '0' { SameTrim(s[..|s| - 1]); }
  }

  lemma FractionWhole(s: string)
    requires AllDigits(s)
    ensures Whole(Fraction(s) * 10000.0) <==> |TrimEnd(s, ZeroChar())| <= 4
  {
    var t := TrimEnd(s, ZeroChar());
    TrimmedDigits(s);
    if |t| <= 4 { ShortFraction(t); } else { LongFraction(t); }
  }

  lemma WholePlus(n: nat, x: real)
    ensures Whole((n as real + x) * 10000.0) <==> Whole(x * 10000.0)
  {
    assert (n as real + x) * 10000.0 == (n * 10000) as real + x * 10000.0;
    assert ((n * 10000) as real + x * 10000.0).Floor == n * 10000 + (x * 10000.0).Floor;
  }

  lemma InRange(n: nat, x: real)
    requires 0.0 <= x < 1.0 && Whole(x * 10000.0)
    ensures n as real + x <= DECIMAL_MAX <==> n < 100_000_000_000_000
  {
    assert (x * 10000.0).Floor <= 9999;
    assert x <= 0.9999;
  }

  lemma FitsExactly(s: string)
    requires SqlNumber(s)
    ensures CastDecimal(SignedValue(s)) == SignedValue(s) <==> FitsDecimal(s)
  {
    var n, f := DigitsValue(WholeDigits(s)), FractionDigits(s);
    FractionBelowOne(f);
    FractionWhole(f);
    WholePlus(n, Fraction(f));
    CastKeepsExactly(SignedValue(s));
    if Whole(Fraction(f) * 10000.0) { InRange(n, Fraction(f)); }
  }

  // trimming the note or its last part

  lemma TrimDropsEnd(s: string, after: string)
    requires forall c | c in after :: IsWhite(c)
    ensures Trim(s + after) == Trim(s)
  {
    var x, y := TrimCuts(s, IsWhite);
    assert s + after == x + Trim(s) + (y + after);
    assert forall c | c in x + (y + after) :: c in x + y || c in after;
    TrimIsMiddle(x, Trim(s), y + after, IsWhite);
  }

  lemma LastColon(s: string) returns (front: string)
    requires !Free(s, ':')
    ensures s == front + [':'] + LastPart(s, ':') && Free(LastPart(s, ':'), ':')
  {
    front := CutLast(s, ':');
  }

  lemma LastStays(x: string, p: seq<string>)
    requires |p| > 1
    ensures ([x] + p[1..])[|[x] + p[1..]| - 1] == p[|p| - 1]
    ensures ([[]] + p)[|[[]] + p| - 1] == p[|p| - 1]
  {
  }

  lemma LastPartNext(h: char, rest: string, c: char)
    requires !Free(rest, c)
    ensures LastPart([h] + rest, c) == LastPart(rest, c)
  {
    SplitNext(h, rest, c);
    LastStays([h] + Split(rest, c)[0], Split(rest, c));
  }

  lemma LastPartFirst(c: char, rest: string)
    requires Free(rest, c)
    ensures LastPart([c] + rest, c) == rest
  {
    SplitNext(c, rest, c);
    SplitFree(rest, c);
  }

  lemma {:induction false} CutLast(s: string, c: char) returns (front: string)
    requires !Free(s, c)
    ensures s == front + [c] + LastPart(s, c) && Free(LastPart(s, c), c)
  {
    var h, rest := s[0], s[1..];
    assert s == [h] + rest;
    if Free(rest, c) {
      LastPartFirst(c, rest);
      front := [];
    } else {
      var cut := CutLast(rest, c);
      LastPartNext(h, rest, c);
      front := [h] + cut;
    }
  }

  /** The last part of a trimmed note is the note's last part, but for white space. */
  lemma LastOfTrimmed(note: string)
    requires !Free(Trim(note), ':')
    ensures Trim(LastPart(Trim(note), ':')) == Trim(LastPart(note, ':'))
  {
    var before, after := TrimCuts(note, IsWhite);
    var front := LastColon(Trim(note));
    var tail := LastPart(Trim(note), ':');
    forall c | c in after ensures IsWhite(c) { assert c in before + after; }
    assert note == (before + front) + [':'] + (tail + after);
    assert Free(tail + after, ':');
    LastPartIs(before + front, tail + after, ':');
    TrimDropsEnd(tail, after);
  }

  lemma PrefixHasColon(note: string)
    requires PREFIX <= note
    ensures !Free(note, ':')
  {
    assert note[2] == ':';
  }

  /** The two readers return the same quantity, or neither any, exactly on these notes. */
  lemma ReadersAgree(note: string)
    ensures RustMarkerQty(note) == SqlMarkerQty(note) <==> ReadAlike(note)
  {
    var last := LastPart(note, ':');
    if PREFIX <= Trim(note) {
      PrefixHasColon(Trim(note));
      LastOfTrimmed(note);
    }
    if SqlNumber(last) {
      SqlNumberReads(last);
      FitsExactly(last);
    }
  }

  // --------------------------------------- the floats that are no numbers to the query

  /** A point with no digit before it or none after it. */
  predicate MissingDigits(s: string) {
    var body := Body(s);
    body != [] && (body[0] == '.' || body[|body| - 1] == '.')
  }

  predicate PlusInFront(s: string) {
    s != [] && s[0] == '+'
  }

  predicate HasExponent(s: string) {
    !Free(Lower(s), 'e')
  }

  lemma PointEnds(body: string, a: string, b: string)
    requires body == a + "." + b
    ensures a == [] ==> body[0] == '.'
    ensures b == [] ==> body[|body| - 1] == '.'
  {
  }

  lemma PlainFloat(s: string)
    requires ParseFloat(s).Some? && !PlusInFront(s) && !HasExponent(s) && !MissingDigits(s)
    ensures SqlNumber(s)
  {
    SplitFree(Lower(s), 'e');
    assert ParseUnsigned(Body(s)).Some?;
    var parts := Split(Body(s), '.');
    if |parts| == 2 {
      TwoParts(Body(s), parts);
      PointEnds(Body(s), parts[0], parts[1]);
    }
  }

  lemma NumberIsPlain(s: string)
    requires SqlNumber(s)
    ensures s != [] && Trim(s) == s && s[0] != '+' && !HasExponent(s) && !MissingDigits(s)
  {
    SqlNumberShape(s);
    TrimOfTight(s, IsWhite);
    BodyChars(s);
    forall i | 0 <= i < |s| ensures Lower(s)[i] != 'e' {
      assert s[i] == '-' || s[i] in Body(s);
    }
  }

  /** A text that Rust parses as a float is a number to the query unless white space surrounds it, a
      plus sign stands in front, it has an exponent, or digits are missing beside its point. */
  lemma FloatsOutsideGrammar(s: string)
    requires ParseFloat(Trim(s)).Some?
    ensures !SqlNumber(s) <==> Trim(s) != s || PlusInFront(s) || HasExponent(s) || MissingDigits(s)
  {
    if SqlNumber(s) {
      NumberIsPlain(s);
    } else if Trim(s) == s && !PlusInFront(s) && !HasExponent(s) && !MissingDigits(s) {
      PlainFloat(s);
    }
  }

  // ------------------------------------------------------------------- a witness

  lemma PlusShape(s: string)
    requires s != [] && AllDigits(s)
    ensures var note := PREFIX + ("+" + s);
            Trim(note) == note && LastPart(note, ':') == "+" + s && Trim("+" + s) == "+" + s
  {
    var note, last := PREFIX + ("+" + s), "+" + s;
    assert note == "TG" + [':'] + last;
    LastPartIs("TG", last, ':');
    assert note[0] == 'T' && note[|note| - 1] == s[|s| - 1] && last[0] == '+';
    TrimOfTight(note, IsWhite);
    TrimOfTight(last, IsWhite);
  }

  lemma PlusReads(s: string)
    requires s != [] && AllDigits(s)
    ensures ParseFloat("+" + s) == Some(DigitsValue(s) as real) && !SqlNumber("+" + s)
  {
    var last := "+" + s;
    SplitFree(s, '.');
    assert last[1..] == s;
    forall i | 0 <= i < |last| ensures Lower(last)[i] != 'e' { assert i > 0 ==> last[i] == s[i - 1]; }
    SplitFree(Lower(last), 'e');
    if SqlNumber(last) { SqlNumberShape(last); }
  }

  /** An explicit plus sign is read by Rust and refused by the query. */
  lemma PlusDiffers(n: nat)
    ensures RustMarkerQty(PREFIX + ("+" + NatText(n))) == Some(n as real)
    ensures SqlMarkerQty(PREFIX + ("+" + NatText(n))) == None
  {
    PlusShape(NatText(n));
    PlusReads(NatText(n));
  }
}
