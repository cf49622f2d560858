/** Literal strings and text streams of src/http/archive_pdf.rs, against a reader that follows
    ISO 32000-1, sections 7.3.4.2 (literal strings) and 7.3.8 (streams). */
module PdfText {
  import opened Text
  import opened Decimals
  import opened Sequences
  import opened PdfValues

  const MAX_CHARS := 132

  predicate IsControl(c: char) {
    c < ' ' || c == 127 as char
  }

  /** What the page shows for a character. */
  function ShownChar(c: char): (r: char)
    ensures IsAscii(r) && !IsControl(r)
  {
    if c == '\n' || c == '\r' || c == '\t' then ' '
    else if IsAscii(c) && !IsControl(c) then c
    else '?'
  }

  function Taken(value: string): string {
    var t := Trim(value);
    if |t| > MAX_CHARS then t[..MAX_CHARS] else t
  }

  /** The text a line shows: trimmed, cut to 132 characters, unprintable ones replaced. */
  function Shown(value: string): string {
    Map(Taken(value), ShownChar)
  }

  /** What a line shows: its first 132 characters without the white space around them, tab and line
      breaks as blanks, and what is not printable ASCII as a question mark. */
  lemma ShownIs(value: string)
    ensures |Shown(value)| == if |Trim(value)| <= 132 then |Trim(value)| else 132
    ensures forall i | 0 <= i < |Shown(value)| ::
              var c := Trim(value)[i];
              Shown(value)[i]
              == if 32 <= c as int <= 126 then c else if c == '\t' || c == '\n' || c == '\r' then ' ' else '?'
  {
  }

  function EscapeChar(c: char): string {
    if c == '\\' || c == '(' || c == ')' then ['\\', c]
    else if c == '\n' || c == '\r' || c == '\t' then " "
    else if IsAscii(c) && !IsControl(c) then [c]
    else "?"
  }

  function FlatMap<T>(s: seq<T>, f: T -> string): string {
    if s == [] then [] else f(s[0]) + FlatMap(s[1..], f)
  }

  lemma {:induction false} FlatMapSnoc<T>(s: seq<T>, x: T, f: T -> string)
    ensures FlatMap(s + [x], f) == FlatMap(s, f) + f(x)
  {
    if s == [] {
      assert ([] + [x])[1..] == [];
    } else {
      FlatMapSnoc(s[1..], x, f);
      assert (s + [x])[1..] == s[1..] + [x];
    }
  }

  function EscapeAll(s: string): string {
    FlatMap(s, EscapeChar)
  }

  /** `escape_pdf_text`. */
  method EscapePdfText(value: string) returns (escaped: string)
    ensures escaped == EscapeAll(Taken(value))
  {
    var chars := Taken(value);
    escaped := "";
    for i := 0 to |chars|
      invariant escaped == EscapeAll(chars[..i])
    {
      var ch := chars[i];
      FlatMapSnoc(chars[..i], ch, EscapeChar);
      assert chars[..i] + [ch] == chars[..i + 1];
      if ch == '\\' || ch == '(' || ch == ')' {
        escaped := escaped + ['\\'] + [ch];
      } else if ch == '\n' || ch == '\r' || ch == '\t' {
        escaped := escaped + " ";
      } else if IsAscii(ch) && !IsControl(ch) {
        escaped := escaped + [ch];
      } else {
        escaped := escaped + "?";
      }
    }
    assert chars[..|chars|] == chars;
  }

  // ------------------------------------------------------------------- the reader

  datatype Literal = Literal(text: string, length: nat)

  predicate IsOctal(c: char) {
    '0' <= c <= '7'
  }

  function OctalLength(s: string): (n: nat)
    ensures n <= 3 && n <= |s|
  {
    if s == [] || !IsOctal(s[0]) then 0
    else if |s| == 1 || !IsOctal(s[1]) then 1
    else if |s| == 2 || !IsOctal(s[2]) then 2
    else 3
  }

  function OctalValue(s: string): nat
    requires forall i | 0 <= i < |s| :: IsOctal(s[i])
  {
    if s == [] then 0 else
      assert IsOctal(s[|s| - 1]);
      8 * OctalValue(s[..|s| - 1]) + (s[|s| - 1] as nat - '0' as nat)
  }

  /** What a backslash sequence stands for, and how many characters follow the backslash. */
  function EscapeSequence(s: string): (r: Literal)
    requires s != []
    ensures 1 <= r.length <= |s|
  {
    var c := s[0];
    if c == 'n' then Literal("\n", 1)
    else if c == 'r' then Literal("\r", 1)
    else if c == 't' then Literal("\t", 1)
    else if c == 'b' then Literal([8 as char], 1)
    else if c == 'f' then Literal([12 as char], 1)
    else if c == '(' || c == ')' || c == '\\' then Literal([c], 1)
    else if IsOctal(c) then Literal([(OctalValue(s[..OctalLength(s)]) % 256) as char], OctalLength(s))
    else if c == '\r' && |s| > 1 && s[1] == '\n' then Literal("", 2)
    else if c == '\r' || c == '\n' then Literal("", 1)
    else Literal([c], 1)
  }

  /** Reads a literal string from just after its opening parenthesis to its own closing one;
      balanced inner parentheses belong to the text. */
  function ReadLiteral(s: string, depth: nat): (r: Option<Literal>)
    ensures r.Some? ==> r.value.length <= |s|
    decreases |s|
  {
    if s == [] then None
    else if s[0] == ')' && depth == 0 then Some(Literal("", 1))
    else if s[0] == ')' then Prepend(")", 1, ReadLiteral(s[1..], depth - 1))
    else if s[0] == '(' then Prepend("(", 1, ReadLiteral(s[1..], depth + 1))
    else if s[0] == '\\' then
      if |s| == 1 then None
      else
        var e := EscapeSequence(s[1..]);
        Prepend(e.text, 1 + e.length, ReadLiteral(s[1 + e.length..], depth))
    else if s[0] == '\r' && |s| > 1 && s[1] == '\n' then Prepend("\n", 2, ReadLiteral(s[2..], depth))
    else if s[0] == '\r' then Prepend("\n", 1, ReadLiteral(s[1..], depth))
    else Prepend([s[0]], 1, ReadLiteral(s[1..], depth))
  }

  function Prepend(text: string, length: nat, rest: Option<Literal>): Option<Literal> {
    match rest case None => None case Some(l) => Some(Literal(text + l.text, length + l.length))
  }

  predicate Marked(c: char) {
    c == '\\' || c == '(' || c == ')'
  }

  lemma EscapeIs(c: char)
    ensures EscapeChar(c) == if Marked(c) then ['\\', c] else [ShownChar(c)]
    ensures if Marked(c) then ShownChar(c) == c else !Marked(ShownChar(c)) && ShownChar(c) != '\r'
  {
  }

  lemma ReadMarked(c: char, rest: string)
    requires Marked(c)
    ensures ReadLiteral(['\\', c] + rest, 0) == Prepend([c], 2, ReadLiteral(rest, 0))
  {
    var s := ['\\', c] + rest;
    assert s[0] == '\\' && s[1..] == [c] + rest && s[2..] == rest;
    assert EscapeSequence(s[1..]) == Literal([c], 1);
  }

  lemma ReadPlain(c: char, rest: string)
    requires !Marked(c) && c != '\r'
    ensures ReadLiteral([c] + rest, 0) == Prepend([c], 1, ReadLiteral(rest, 0))
  {
    assert ([c] + rest)[1..] == rest;
  }

  /** One written character is read back as the character shown. */
  lemma ReadEscaped(c: char, rest: string)
    ensures ReadLiteral(EscapeChar(c) + rest, 0) == Prepend([ShownChar(c)], |EscapeChar(c)|, ReadLiteral(rest, 0))
  {
    EscapeIs(c);
    if Marked(c) { ReadMarked(c, rest); } else { ReadPlain(ShownChar(c), rest); }
  }

  lemma Regroup(a: string, b: string, c: string, d: string)
    ensures (a + b) + c + d == a + (b + c + d)
  {
  }

  /** The reader takes `written` for `shown` and stops at the parenthesis after it. */
  predicate ReadsAs(written: string, shown: string, rest: string) {
    ReadLiteral(written + ")" + rest, 0) == Some(Literal(shown, |written| + 1))
  }

  lemma ReadsAsStep(c: char, written: string, shown: string, rest: string)
    requires ReadsAs(written, shown, rest)
    ensures ReadsAs(EscapeChar(c) + written, [ShownChar(c)] + shown, rest)
  {
    ReadEscaped(c, written + ")" + rest);
    Regroup(EscapeChar(c), written, ")", rest);
  }

  lemma ReadsAsEmpty(rest: string)
    ensures ReadsAs("", "", rest)
  {
    assert "" + ")" + rest == ")" + rest;
  }

  lemma {:induction false} ReadEscapedAll(chars: string, rest: string)
    ensures ReadsAs(EscapeAll(chars), Map(chars, ShownChar), rest)
  {
    if chars == [] {
      ReadsAsEmpty(rest);
    } else {
      ReadEscapedAll(chars[1..], rest);
      ReadsAsStep(chars[0], EscapeAll(chars[1..]), Map(chars[1..], ShownChar), rest);
      MapFirst(chars, ShownChar);
    }
  }

  /** A literal the writer emits is read back as exactly the text shown, and the reader stops at
      the writer's own closing parenthesis, whatever comes after. */
  lemma LiteralRoundTrip(value: string, rest: string)
    ensures var written := EscapeAll(Taken(value));
            ReadLiteral(written + ")" + rest, 0) == Some(Literal(Shown(value), |written| + 1))
  {
    ReadEscapedAll(Taken(value), rest);
  }

  // ------------------------------------------------------------------- the stream

  const STREAM_HEAD := "BT\n/F1 8 Tf\n36 555 Td\n11 TL\n"
  const LINE_TAIL := " Tj\nT*\n"
  const STREAM_END := "ET"

  function LineText(line: string): string {
    "(" + EscapeAll(Taken(line)) + ")" + LINE_TAIL
  }

  function LinesText(lines: seq<string>): string {
    FlatMap(lines, LineText)
  }

  function TextStream(lines: seq<string>): string {
    STREAM_HEAD + LinesText(lines) + STREAM_END
  }

  lemma LinesTextFirst(lines: seq<string>)
    requires lines != []
    ensures LinesText(lines) + STREAM_END == LineText(lines[0]) + (LinesText(lines[1..]) + STREAM_END)
  {
    Associate(LineText(lines[0]), LinesText(lines[1..]), STREAM_END);
  }

  /** One turn of the loop of `build_pdf_text_stream`. */
  method AppendLine(stream: string, line: string) returns (longer: string)
    ensures longer == stream + LineText(line)
  {
    longer := stream + "(";
    var escaped := EscapePdfText(line);
    longer := longer + escaped;
    longer := longer + (")" + LINE_TAIL);
    Regroup(stream, "(", escaped, ")" + LINE_TAIL);
    Regroup("(", escaped, ")", LINE_TAIL);
  }

  lemma FlatMapNext<T>(head: string, s: seq<T>, i: nat, f: T -> string)
    requires i < |s|
    ensures head + FlatMap(s[..i + 1], f) == (head + FlatMap(s[..i], f)) + f(s[i])
  {
    FlatMapSnoc(s[..i], s[i], f);
    assert s[..i] + [s[i]] == s[..i + 1];
    Associate(head, FlatMap(s[..i], f), f(s[i]));
  }

  /** `build_pdf_text_stream`. */
  method BuildPdfTextStream(lines: seq<string>) returns (stream: string)
    ensures stream == TextStream(lines)
  {
    stream := STREAM_HEAD;
    for i := 0 to |lines|
      invariant stream == STREAM_HEAD + LinesText(lines[..i])
    {
      stream := AppendLine(stream, lines[i]);
      FlatMapNext(STREAM_HEAD, lines, i, LineText);
    }
    assert lines[..|lines|] == lines;
    stream := stream + STREAM_END;
  }

  /** What a stream shows: a font by its name, its size, where the first line begins, how far down
      the next one is, and the lines. */
  datatype TextBlock = TextBlock(font: string, size: nat, x: nat, y: nat, leading: nat, lines: seq<string>)

  /** Reads the shown lines: a literal shown by Tj, T* for the next line, and so on to the end mark. */
  function ReadLines(s: string): Option<seq<string>>
    decreases |s|
  {
    if s == "ET" then Some([])
    else if s == [] || s[0] != '(' then None
    else
      match ReadLiteral(s[1..], 0) {
        case None => None
        case Some(l) =>
          match Expect(s[1 + l.length..], " Tj\nT*\n") {
            case None => None
            case Some(after) =>
              match ReadLines(after) { case None => None case Some(rest) => Some([l.text] + rest) }
          }
      }
  }

  /** Reads the leading and the lines. */
  function ReadFrom(s: string, font: string, size: nat, x: nat, y: nat): Option<TextBlock> {
    match ReadAmount(s, " TL\n")
    case None => None
    case Some(leading) =>
      match ReadLines(leading.rest)
      case None => None
      case Some(lines) => Some(TextBlock(font, size, x, y, leading.value, lines))
  }

  /** Reads the place of the first line and what follows. */
  function ReadPlaced(s: string, font: string, size: nat): Option<TextBlock> {
    match ReadAmount(s, " ")
    case None => None
    case Some(x) =>
      match ReadAmount(x.rest, " Td\n")
      case None => None
      case Some(y) => ReadFrom(y.rest, font, size, x.value, y.value)
  }

  /** Reads the font, its size and what follows. */
  function ReadSized(s: string): Option<TextBlock> {
    match ReadName(s)
    case None => None
    case Some(font) =>
      match Expect(font.rest, " ")
      case None => None
      case Some(more) =>
        match ReadAmount(more, " Tf\n")
        case None => None
        case Some(size) => ReadPlaced(size.rest, font.value, size.value)
  }

  /** The text object of a page. */
  function ReadStream(stream: string): Option<TextBlock> {
    match Expect(stream, "BT\n") case None => None case Some(s) => ReadSized(s)
  }

  predicate LinesReadAs(written: string, shown: seq<string>) {
    ReadLines(written) == Some(shown)
  }

  /** One turn of the reader over one written line. */
  lemma LinesReadAsStep(written: string, shown: string, tail: string, rest: seq<string>)
    requires ReadsAs(written, shown, LINE_TAIL + tail)
    requires LinesReadAs(tail, rest)
    ensures LinesReadAs("(" + written + ")" + LINE_TAIL + tail, [shown] + rest)
  {
    var s := "(" + written + ")" + LINE_TAIL + tail;
    var more := LINE_TAIL + tail;
    assert s[1..] == written + ")" + more;
    var after := s[1 + (|written| + 1)..];
    assert after == more;
    ExpectReads(LINE_TAIL, tail);
    assert s[0] == '(';
  }

  lemma LinesReadAsCons(line: string, tail: string, rest: seq<string>)
    requires LinesReadAs(tail, rest)
    ensures LinesReadAs(LineText(line) + tail, [Shown(line)] + rest)
  {
    LiteralRoundTrip(line, LINE_TAIL + tail);
    LinesReadAsStep(EscapeAll(Taken(line)), Shown(line), tail, rest);
  }

  lemma {:induction false} ReadWrittenLines(lines: seq<string>)
    ensures LinesReadAs(LinesText(lines) + STREAM_END, Map(lines, Shown))
  {
    if lines == [] {
      assert LinesText(lines) + STREAM_END == STREAM_END;
    } else {
      ReadWrittenLines(lines[1..]);
      LinesReadAsCons(lines[0], LinesText(lines[1..]) + STREAM_END, Map(lines[1..], Shown));
      LinesTextFirst(lines);
      MapFirst(lines, Shown);
    }
  }

  lemma HeadNumbers()
    ensures NatText(8) == "8" && NatText(36) == "36" && NatText(555) == "555" && NatText(11) == "11"
  {
    assert NatText(3) == "3" && NatText(1) == "1" && NatText(5) == "5" && NatText(55) == "55";
  }

  lemma HeadParts()
    ensures STREAM_HEAD
         == "BT\n" + ("/" + "F1" + (" " + ("8" + " Tf\n"))) + ("36" + (" " + ("555" + " Td\n")) + ("11" + " TL\n"))
  {
  }

  lemma HeadRegroup(bt: string, f: string, b: string, size: string, tf: string, x: string, y: string, td: string,
                    leading: string, tl: string, rest: string)
    ensures bt + (f + (b + (size + tf))) + (x + (b + (y + td)) + (leading + tl)) + rest
         == bt + (f + (b + (size + (tf + (x + (b + (y + (td + (leading + (tl + rest))))))))))
  {
  }

  lemma FromReads(n: nat, rest: string, font: string, size: nat, x: nat, y: nat, lines: seq<string>)
    requires ReadLines(rest) == Some(lines)
    ensures ReadFrom(NatText(n) + (" TL\n" + rest), font, size, x, y) == Some(TextBlock(font, size, x, y, n, lines))
  {
    AmountReads(n, " TL\n", rest);
  }

  lemma PlacedReads(x: nat, y: nat, rest: string, font: string, size: nat, block: TextBlock)
    requires ReadFrom(rest, font, size, x, y) == Some(block)
    ensures ReadPlaced(NatText(x) + (" " + (NatText(y) + (" Td\n" + rest))), font, size) == Some(block)
  {
    AmountReads(x, " ", NatText(y) + (" Td\n" + rest));
    AmountReads(y, " Td\n", rest);
  }

  lemma SizedReads(font: string, size: nat, rest: string, block: TextBlock)
    requires PlainName(font) && ReadPlaced(rest, font, size) == Some(block)
    ensures ReadSized("/" + font + (" " + (NatText(size) + (" Tf\n" + rest)))) == Some(block)
  {
    var more := NatText(size) + (" Tf\n" + rest);
    NameReads(font, " " + more);
    ExpectReads(" ", more);
    AmountReads(size, " Tf\n", rest);
  }

  /** A text object with these settings, from the font's name on. */
  function Settings(block: TextBlock, rest: string): string {
    "/" + block.font + (" " + (NatText(block.size) + (" Tf\n" + (NatText(block.x) + (" " + (NatText(block.y)
      + (" Td\n" + (NatText(block.leading) + (" TL\n" + rest)))))))))
  }

  lemma BlockReads(block: TextBlock, rest: string)
    requires PlainName(block.font) && ReadLines(rest) == Some(block.lines)
    ensures ReadSized(Settings(block, rest)) == Some(block)
  {
    FromReads(block.leading, rest, block.font, block.size, block.x, block.y, block.lines);
    var last := NatText(block.leading) + (" TL\n" + rest);
    PlacedReads(block.x, block.y, last, block.font, block.size, block);
    SizedReads(block.font, block.size, NatText(block.x) + (" " + (NatText(block.y) + (" Td\n" + last))), block);
  }

  lemma TextObjectReads(s: string, rest: string, block: TextBlock)
    requires s == "BT\n" + rest && ReadSized(rest) == Some(block)
    ensures ReadStream(s) == Some(block)
  {
    ExpectReads("BT\n", rest);
  }

  lemma StreamText(block: TextBlock, rest: string)
    requires block.font == "F1" && block.size == 8 && block.x == 36 && block.y == 555 && block.leading == 11
    ensures STREAM_HEAD + rest == "BT\n" + Settings(block, rest)
  {
    HeadNumbers();
    HeadParts();
    HeadRegroup("BT\n", "/" + "F1", " ", "8", " Tf\n", "36", "555", " Td\n", "11", " TL\n", rest);
  }

  lemma FontNamePlain()
    ensures PlainName("F1")
  {
  }

  /** Reading a page's stream gives back every line as shown, in order: in font F1 at eight points,
      from (36, 555) down in steps of eleven. */
  lemma StreamRoundTrip(lines: seq<string>)
    ensures ReadStream(TextStream(lines)) == Some(TextBlock("F1", 8, 36, 555, 11, Map(lines, Shown)))
  {
    var rest, block := LinesText(lines) + STREAM_END, TextBlock("F1", 8, 36, 555, 11, Map(lines, Shown));
    ReadWrittenLines(lines);
    FontNamePlain();
    BlockReads(block, rest);
    StreamText(block, rest);
    Associate(STREAM_HEAD, LinesText(lines), STREAM_END);
    TextObjectReads(TextStream(lines), Settings(block, rest), block);
  }

  // ------------------------------------------------------------------------ ASCII

  lemma AsciiConcat(a: string, b: string)
    ensures AllAscii(a + b) <==> AllAscii(a) && AllAscii(b)
  {
    assert forall c | c in a :: c in a + b;
    assert forall c | c in b :: c in a + b;
  }

  lemma {:induction false} EscapedAscii(s: string)
    ensures AllAscii(EscapeAll(s))
  {
    if s != [] {
      EscapedAscii(s[1..]);
      AsciiConcat(EscapeChar(s[0]), EscapeAll(s[1..]));
    }
  }

  lemma {:induction false} LinesAscii(lines: seq<string>)
    ensures AllAscii(LinesText(lines))
  {
    if lines != [] {
      EscapedAscii(Taken(lines[0]));
      LinesAscii(lines[1..]);
      AsciiConcat("(" + EscapeAll(Taken(lines[0])) + ")", LINE_TAIL);
      AsciiConcat("(" + EscapeAll(Taken(lines[0])), ")");
      AsciiConcat("(", EscapeAll(Taken(lines[0])));
      AsciiConcat(LineText(lines[0]), LinesText(lines[1..]));
    }
  }

  lemma AsciiThree(a: string, b: string, c: string)
    requires AllAscii(a) && AllAscii(b) && AllAscii(c)
    ensures AllAscii(a + b + c) && ByteLen(a + b + c) == |a + b + c|
  {
    AsciiConcat(a, b);
    AsciiConcat(a + b, c);
  }

  lemma StreamHeadAscii()
    ensures AllAscii(STREAM_HEAD)
  {
  }

  lemma StreamEndAscii()
    ensures AllAscii(STREAM_END)
  {
  }

  /** A stream is ASCII, so its length in characters is its length in bytes. */
  lemma StreamAscii(lines: seq<string>)
    ensures AllAscii(TextStream(lines)) && ByteLen(TextStream(lines)) == |TextStream(lines)|
  {
    LinesAscii(lines);
    StreamHeadAscii();
    StreamEndAscii();
    AsciiThree(STREAM_HEAD, LinesText(lines), STREAM_END);
  }
}
