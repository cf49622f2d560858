/** `normalize_for_search` of src/erpdb/werka_item_search.rs: lower case, Cyrillic to Latin, no
    apostrophes, single spaces. */
module SearchText {
  import opened Text
  import opened Sequences

  /** The character classes of the runtime, one character to one character. */
  datatype Classes = Classes(lower: char -> char, alnum: char -> bool)

  predicate AsciiAlnum(c: char) {
    'a' <= c <= 'z' || 'A' <= c <= 'Z' || IsDigit(c)
  }

  /** What is used of Unicode: ASCII is as usual, folding twice is folding once, white space is
      not alphanumeric. */
  ghost predicate Sound(u: Classes) {
    && (forall c | IsAscii(c) :: u.alnum(c) == AsciiAlnum(c) && u.lower(c) == LowerChar(c))
    && (forall c :: u.lower(u.lower(c)) == u.lower(c))
    && (forall c | IsWhite(c) :: !u.alnum(c))
  }

  /** The transliteration table; everything it prints is ASCII. */
  function Latin(c: char): Option<string> {
    var n := c as int;
    if n == 0x430 then Some("a")
    else if n == 0x431 then Some("b")
    else if n == 0x432 then Some("v")
    else if n == 0x433 then Some("g")
    else if n == 0x434 then Some("d")
    else if n == 0x435 then Some("e")
    else if n == 0x436 then Some("j")
    else if n == 0x437 then Some("z")
    else if n == 0x438 then Some("i")
    else if n == 0x439 then Some("y")
    else if n == 0x43A then Some("k")
    else if n == 0x43B then Some("l")
    else if n == 0x43C then Some("m")
    else if n == 0x43D then Some("n")
    else if n == 0x43E then Some("o")
    else if n == 0x43F then Some("p")
    else if n == 0x440 then Some("r")
    else if n == 0x441 then Some("s")
    else if n == 0x442 then Some("t")
    else if n == 0x443 then Some("u")
    else if n == 0x444 then Some("f")
    else if n == 0x445 then Some("x")
    else if n == 0x446 then Some("ts")
    else if n == 0x447 then Some("ch")
    else if n == 0x448 then Some("sh")
    else if n == 0x449 then Some("sh")
    else if n == 0x44A then Some("'")
    else if n == 0x44C then Some("")
    else if n == 0x44D then Some("e")
    else if n == 0x44E then Some("yu")
    else if n == 0x44F then Some("ya")
    else if n == 0x451 then Some("yo")
    else if n == 0x45E then Some("o'")
    else if n == 0x493 then Some("g'")
    else if n == 0x49B then Some("q")
    else if n == 0x4A3 then Some("ng")
    else if n == 0x4AF then Some("u")
    else if n == 0x4B3 then Some("h")
    else if n == 0x4D9 then Some("a")
    else if n == 0x4E9 then Some("o")
    else None
  }

  /** The table by its letters: the first of the Russian alphabet, the rest of it, and the letters of
      other alphabets. */
  lemma EarlyLetters()
    ensures Latin('а') == Some("a") && Latin('б') == Some("b") && Latin('в') == Some("v") && Latin('г') == Some("g")
    ensures Latin('д') == Some("d") && Latin('е') == Some("e") && Latin('ж') == Some("j") && Latin('з') == Some("z")
    ensures Latin('и') == Some("i") && Latin('й') == Some("y")
  {
  }

  lemma MiddleLetters()
    ensures Latin('к') == Some("k") && Latin('л') == Some("l") && Latin('м') == Some("m") && Latin('н') == Some("n")
    ensures Latin('о') == Some("o") && Latin('п') == Some("p") && Latin('р') == Some("r") && Latin('с') == Some("s")
    ensures Latin('т') == Some("t") && Latin('у') == Some("u")
  {
  }

  lemma LateLetters()
    ensures Latin('ф') == Some("f") && Latin('х') == Some("x") && Latin('ц') == Some("ts") && Latin('ч') == Some("ch")
    ensures Latin('ш') == Some("sh") && Latin('щ') == Some("sh")
  {
  }

  lemma LastLetters()
    ensures Latin('ъ') == Some("'") && Latin('ь') == Some("") && Latin('э') == Some("e") && Latin('ю') == Some("yu")
    ensures Latin('я') == Some("ya")
  {
  }

  lemma AddedLetters()
    ensures Latin('ё') == Some("yo") && Latin('ў') == Some("o'") && Latin('ғ') == Some("g'") && Latin('қ') == Some("q")
    ensures Latin('ң') == Some("ng")
  {
  }

  lemma OtherLetters()
    ensures Latin('ү') == Some("u") && Latin('ҳ') == Some("h") && Latin('ә') == Some("a") && Latin('ө') == Some("o")
  {
  }

  /** No other character is written in Latin letters. */
  lemma OtherCharacters(c: char)
    requires c != 'а' && c != 'б' && c != 'в' && c != 'г' && c != 'д' && c != 'е' && c != 'ж' && c != 'з'
    requires c != 'и' && c != 'й' && c != 'к' && c != 'л' && c != 'м' && c != 'н' && c != 'о' && c != 'п'
    requires c != 'р' && c != 'с' && c != 'т' && c != 'у' && c != 'ф' && c != 'х' && c != 'ц' && c != 'ч'
    requires c != 'ш' && c != 'щ' && c != 'ъ' && c != 'ь' && c != 'э' && c != 'ю' && c != 'я' && c != 'ё'
    requires c != 'ў' && c != 'ғ' && c != 'қ' && c != 'ң' && c != 'ү' && c != 'ҳ' && c != 'ә' && c != 'ө'
    ensures Latin(c) == None
  {
  }

  function Translit(c: char): string {
    match Latin(c) case Some(t) => t case None => [c]
  }

  function TranslitAll(s: string): string {
    if s == [] then [] else Translit(s[0]) + TranslitAll(s[1..])
  }

  predicate IsApostrophe(c: char) {
    c == '\'' || c == '`' || c as int == 0x2BB || c as int == 0x2BC || c as int == 0x2019
  }

  predicate NotApostrophe(c: char) {
    !IsApostrophe(c)
  }

  function XToH(c: char): char {
    if c == 'x' then 'h' else c
  }

  function Cleaned(u: Classes, s: string): string {
    Map(Filter(TranslitAll(Map(Trim(s), u.lower)), NotApostrophe), XToH)
  }

  /** Keeps letters and digits, and one space for each run of anything else. */
  function Collapse(u: Classes, s: string, spaced: bool): string {
    if s == [] then []
    else if u.alnum(s[0]) then [s[0]] + Collapse(u, s[1..], false)
    else if spaced then Collapse(u, s[1..], true)
    else [' '] + Collapse(u, s[1..], true)
  }

  function Normalize(u: Classes, s: string): string {
    if Trim(s) == [] then [] else Trim(Collapse(u, Cleaned(u, s), false))
  }

  lemma CollapseStep(u: Classes, done: string, text: string, i: nat, spaced: bool)
    requires i < |text|
    ensures done + Collapse(u, text[i..], spaced)
         == (done + (if u.alnum(text[i]) then [text[i]] else if spaced then [] else [' ']))
            + Collapse(u, text[i + 1..], !u.alnum(text[i]))
  {
    assert text[i..][1..] == text[i + 1..];
  }

  /** The loop of `normalize_for_search`. */
  method CollapseText(u: Classes, text: string) returns (result: string)
    ensures result == Collapse(u, text, false)
  {
    result := [];
    var lastWasSpace := false;
    assert text[0..] == text;
    for i := 0 to |text|
      invariant result + Collapse(u, text[i..], lastWasSpace) == Collapse(u, text, false)
    {
      var ch := text[i];
      CollapseStep(u, result, text, i, lastWasSpace);
      if u.alnum(ch) {
        result := result + [ch];
        lastWasSpace := false;
      } else if !lastWasSpace {
        result := result + [' '];
        lastWasSpace := true;
      }
    }
  }

  /** `normalize_for_search`. */
  method NormalizeForSearch(u: Classes, input: string) returns (normal: string)
    ensures normal == Normalize(u, input)
  {
    if Trim(input) == [] {
      return [];
    }
    var result := CollapseText(u, Cleaned(u, input));
    normal := Trim(result);
  }

  // -------------------------------------------------------------------- normal form

  /** A character no step changes. */
  ghost predicate Clean(u: Classes, c: char) {
    u.lower(c) == c && Translit(c) == [c] && NotApostrophe(c) && c != 'x'
  }

  ghost predicate NormalChar(u: Classes, c: char) {
    c == ' ' || (u.alnum(c) && Clean(u, c))
  }

  ghost predicate NormalChars(u: Classes, s: string) {
    forall c | c in s :: NormalChar(u, c)
  }

  predicate SingleSpaced(s: string) {
    forall i | 0 <= i < |s| - 1 :: s[i] != ' ' || s[i + 1] != ' '
  }

  /** Clean letters and digits in words with single spaces between. */
  ghost predicate IsNormal(u: Classes, s: string) {
    NormalChars(u, s) && SingleSpaced(s) && Tight(s)
  }

  predicate TableOutput(c: char) {
    'a' <= c <= 'z' || c == '\''
  }

  /** The table prints plain Latin letters and apostrophes only. */
  lemma LatinIsPlain(c: char)
    ensures IsAscii(c) ==> Latin(c) == None
    ensures Latin(c).Some? ==> forall d | d in Latin(c).value :: TableOutput(d)
  {
  }

  lemma TranslitChar(u: Classes, c: char, d: char)
    requires Sound(u) && u.lower(c) == c && d in Translit(c)
    ensures u.lower(d) == d && Translit(d) == [d]
  {
    LatinIsPlain(c);
    LatinIsPlain(d);
  }

  lemma {:induction false} TranslitAllChars(u: Classes, s: string, d: char)
    requires Sound(u) && d in TranslitAll(s)
    requires forall c | c in s :: u.lower(c) == c
    ensures u.lower(d) == d && Translit(d) == [d]
  {
    if d in Translit(s[0]) {
      TranslitChar(u, s[0], d);
    } else {
      TranslitAllChars(u, s[1..], d);
    }
  }

  lemma CleanedIsClean(u: Classes, s: string)
    requires Sound(u)
    ensures forall c | c in Cleaned(u, s) :: Clean(u, c)
  {
    var lowered := Map(Trim(s), u.lower);
    var kept := Filter(TranslitAll(lowered), NotApostrophe);
    forall c | c in Cleaned(u, s) ensures Clean(u, c) {
      var i :| 0 <= i < |kept| && XToH(kept[i]) == c;
      var d := kept[i];
      assert d in kept;
      TranslitAllChars(u, lowered, d);
      LatinIsPlain('h');
    }
  }

  lemma {:induction false} CollapseIsSpaced(u: Classes, s: string, spaced: bool)
    requires Sound(u) && forall c | c in s :: Clean(u, c)
    ensures NormalChars(u, Collapse(u, s, spaced))
    ensures SingleSpaced(Collapse(u, s, spaced))
    ensures spaced && Collapse(u, s, spaced) != [] ==> Collapse(u, s, spaced)[0] != ' '
  {
    if s != [] {
      assert s[0] in s;
      CollapseIsSpaced(u, s[1..], !u.alnum(s[0]));
      assert u.alnum(s[0]) ==> s[0] != ' ';
    }
  }

  lemma SpacedPart(u: Classes, s: string, before: string, middle: string, after: string)
    requires s == before + middle + after && NormalChars(u, s) && SingleSpaced(s)
    ensures NormalChars(u, middle) && SingleSpaced(middle)
  {
    forall c | c in middle ensures NormalChar(u, c) {
      assert c in s;
    }
    forall i | 0 <= i < |middle| - 1 ensures middle[i] != ' ' || middle[i + 1] != ' ' {
      assert s[|before| + i] == middle[i] && s[|before| + i + 1] == middle[i + 1];
    }
  }

  /** Whatever the input, the result is in normal form. */
  lemma NormalizeIsNormal(u: Classes, s: string)
    requires Sound(u)
    ensures IsNormal(u, Normalize(u, s))
  {
    if Trim(s) != [] {
      CleanedIsClean(u, s);
      var spaced := Collapse(u, Cleaned(u, s), false);
      CollapseIsSpaced(u, Cleaned(u, s), false);
      var before, after := TrimCuts(spaced, IsWhite);
      SpacedPart(u, spaced, before, Trim(spaced), after);
    }
  }

  // -------------------------------------------------------------- nothing is lost

  lemma {:induction false} CollapseKeeps(u: Classes, s: string, spaced: bool)
    requires !u.alnum(' ')
    ensures Filter(Collapse(u, s, spaced), u.alnum) == Filter(s, u.alnum)
  {
    if s != [] {
      assert s == [s[0]] + s[1..];
      CollapseKeeps(u, s[1..], !u.alnum(s[0]));
      var rest := Collapse(u, s[1..], !u.alnum(s[0]));
      FilterOne(s[0], s[1..], u.alnum);
      FilterOne(s[0], rest, u.alnum);
      FilterOne(' ', rest, u.alnum);
    }
  }

  lemma TrimKeeps(u: Classes, s: string)
    requires Sound(u)
    ensures Filter(Trim(s), u.alnum) == Filter(s, u.alnum)
  {
    var before, after := TrimCuts(s, IsWhite);
    forall c | c in before ensures !u.alnum(c) { assert c in before + after; }
    forall c | c in after ensures !u.alnum(c) { assert c in before + after; }
    FilterNone(before, u.alnum);
    FilterNone(after, u.alnum);
    FilterOfConcat(before + Trim(s), after, u.alnum);
    FilterOfConcat(before, Trim(s), u.alnum);
  }

  /** The letters and digits of the normal form are exactly those of the folded, transliterated
      text without its apostrophes, in order: spacing is all the loop changes. */
  lemma NormalizeKeepsLetters(u: Classes, s: string)
    requires Sound(u)
    ensures Filter(Normalize(u, s), u.alnum) == Filter(Cleaned(u, s), u.alnum)
  {
    if Trim(s) != [] {
      CollapseKeeps(u, Cleaned(u, s), false);
      TrimKeeps(u, Collapse(u, Cleaned(u, s), false));
    }
  }

  // -------------------------------------------------------------------- idempotence

  lemma {:induction false} TranslitAllFixed(s: string)
    requires forall c | c in s :: Translit(c) == [c]
    ensures TranslitAll(s) == s
  {
    if s != [] {
      assert s[0] in s;
      TranslitAllFixed(s[1..]);
    }
  }

  lemma MapFixed<T>(s: seq<T>, f: T -> T)
    requires forall x | x in s :: f(x) == x
    ensures Map(s, f) == s
  {
    forall i | 0 <= i < |s| ensures Map(s, f)[i] == s[i] {
      assert s[i] in s;
    }
  }

  lemma {:induction false} CollapseFixed(u: Classes, s: string, spaced: bool)
    requires SingleSpaced(s) && forall c | c in s :: c != ' ' ==> u.alnum(c)
    requires !u.alnum(' ') && (spaced && s != [] ==> s[0] != ' ')
    ensures Collapse(u, s, spaced) == s
  {
    if s != [] {
      assert s[0] in s;
      if |s| > 1 { assert s[1..][0] == s[1]; }
      assert SingleSpaced(s[1..]) by {
        forall i | 0 <= i < |s[1..]| - 1 ensures s[1..][i] != ' ' || s[1..][i + 1] != ' ' {
          assert s[i + 1] != ' ' || s[i + 2] != ' ';
        }
      }
      CollapseFixed(u, s[1..], s[0] == ' ');
      assert s == [s[0]] + s[1..];
    }
  }

  lemma NormalCharIsClean(u: Classes, c: char)
    requires Sound(u) && NormalChar(u, c)
    ensures Clean(u, c)
  {
    LatinIsPlain(' ');
  }

  lemma CleanIsFixed(u: Classes, s: string)
    requires forall c | c in s :: Clean(u, c)
    ensures Map(s, u.lower) == s && TranslitAll(s) == s && Filter(s, NotApostrophe) == s && Map(s, XToH) == s
  {
    MapFixed(s, u.lower);
    TranslitAllFixed(s);
    FilterAll(s, NotApostrophe);
    MapFixed(s, XToH);
  }

  lemma CleanedOfNormal(u: Classes, s: string)
    requires Sound(u) && IsNormal(u, s)
    ensures Cleaned(u, s) == s
  {
    forall c | c in s ensures Clean(u, c) {
      NormalCharIsClean(u, c);
    }
    TrimOfTight(s, IsWhite);
    CleanIsFixed(u, s);
  }

  /** A text in normal form is left as it is. */
  lemma NormalIsFixed(u: Classes, s: string)
    requires Sound(u) && IsNormal(u, s)
    ensures Normalize(u, s) == s
  {
    TrimOfTight(s, IsWhite);
    if s != [] {
      CleanedOfNormal(u, s);
      CollapseFixed(u, s, false);
    }
  }

  /** Normalising twice is normalising once. */
  lemma NormalizeTwice(u: Classes, s: string)
    requires Sound(u)
    ensures Normalize(u, Normalize(u, s)) == Normalize(u, s)
  {
    NormalizeIsNormal(u, s);
    NormalIsFixed(u, Normalize(u, s));
  }

  // ------------------------------------------------------------------- known texts

  lemma CollapseLetters(u: Classes, word: string, rest: string, spaced: bool)
    requires word != [] && forall c | c in word :: u.alnum(c)
    ensures Collapse(u, word + rest, spaced) == word + Collapse(u, rest, false)
    decreases word
  {
    var c, more := word[0], word[1..];
    assert word == [c] + more && c in word;
    assert (word + rest)[1..] == more + rest;
    if more == [] {
      assert more + rest == rest;
    } else {
      CollapseLetters(u, more, rest, false);
    }
  }

  lemma CollapseGap(u: Classes, c: char, rest: string)
    requires !u.alnum(c)
    ensures Collapse(u, [c] + rest, false) == " " + Collapse(u, rest, true)
  {
    assert ([c] + rest)[1..] == rest;
  }

  /** Three letters with something else between them. */
  lemma ThreeLetters(u: Classes, a: char, x: char, b: char, y: char, c: char)
    requires u.alnum(a) && u.alnum(b) && u.alnum(c) && !u.alnum(x) && !u.alnum(y)
    ensures Collapse(u, [a, x, b, y, c], false) == [a, ' ', b, ' ', c]
  {
    CollapseLetters(u, [c], [], true);
    CollapseGap(u, y, [c]);
    CollapseLetters(u, [b], [y, c], true);
    CollapseGap(u, x, [b, y, c]);
    CollapseLetters(u, [a], [x, b, y, c], false);
    assert [c] + [] == [c] && [y] + [c] == [y, c] && [b] + [y, c] == [b, y, c] && [x] + [b, y, c] == [x, b, y, c];
    assert [a] + [x, b, y, c] == [a, x, b, y, c];
  }

  lemma LoweredText(u: Classes, s: string, low: string)
    requires Sound(u) && AllAscii(s) && |s| == |low| && forall i | 0 <= i < |s| :: low[i] == LowerChar(s[i])
    ensures Map(s, u.lower) == low && TranslitAll(low) == low
  {
    forall i | 0 <= i < |s| ensures u.lower(s[i]) == low[i] && Translit(low[i]) == [low[i]] {
      assert s[i] in s;
      LatinIsPlain(low[i]);
    }
    TranslitAllFixed(low);
  }

  lemma DropsOne(before: string, x: char, after: string, p: char -> bool)
    requires !p(x) && (forall c | c in before :: p(c)) && forall c | c in after :: p(c)
    ensures Filter(before + [x] + after, p) == before + after
  {
    hide *;
    FilterMiddle(before, x, after, p);
    FilterAll(before, p);
    FilterAll(after, p);
    FilterSingle(x, p);
    assert before + [] + after == before + after;
  }

  lemma WithoutApostrophe(before: string, after: string)
    requires forall c | c in before + after :: NotApostrophe(c) && c != 'x'
    ensures Map(Filter(before + ['\''] + after, NotApostrophe), XToH) == before + after
  {
    forall c | c in before ensures NotApostrophe(c) { assert c in before + after; }
    forall c | c in after ensures NotApostrophe(c) { assert c in before + after; }
    DropsOne(before, '\'', after, NotApostrophe);
    MapFixed(before + after, XToH);
  }

  lemma TightStays(s: string)
    requires Tight(s)
    ensures Trim(s) == s
  {
    TrimOfTight(s, IsWhite);
  }

  lemma NormalizeIs(u: Classes, s: string, t: string)
    requires Trim(s) != [] && Collapse(u, Cleaned(u, s), false) == t && Trim(t) == t
    ensures Normalize(u, s) == t
  {
  }

  lemma KnownLetters(u: Classes)
    requires Sound(u)
    ensures u.alnum('a') && u.alnum('b') && u.alnum('c') && !u.alnum('_') && !u.alnum('%')
    ensures "A_B%'C" != "" && Tight("A_B%'C") && Tight("a b c") && AllAscii("A_B%'C")
    ensures forall i | 0 <= i < 6 :: "a_b%'c"[i] == LowerChar("A_B%'C"[i])
    ensures forall c | c in "a_b%" + "c" :: NotApostrophe(c) && c != 'x'
  {
  }

  lemma CleanedIs(u: Classes, s: string, low: string, before: string, after: string)
    requires Trim(s) == s && Map(s, u.lower) == low && TranslitAll(low) == low && low == before + ['\''] + after
    requires Map(Filter(before + ['\''] + after, NotApostrophe), XToH) == before + after
    ensures Cleaned(u, s) == before + after
  {
  }

  /** `normalize_for_search_matches_go_transliteration_rules`, the text of ASCII characters. */
  lemma KnownText(u: Classes)
    requires Sound(u)
    ensures Normalize(u, "A_B%'C") == "a b c"
  {
    hide *;
    var s, low := "A_B%'C", "a_b%'c";
    KnownLetters(u);
    TightStays(s);
    TightStays("a b c");
    LoweredText(u, s, low);
    assert low == "a_b%" + ['\''] + "c" && "a_b%" + "c" == ['a', '_', 'b', '%', 'c'];
    WithoutApostrophe("a_b%", "c");
    CleanedIs(u, s, low, "a_b%", "c");
    ThreeLetters(u, 'a', '_', 'b', '%', 'c');
    assert ['a', ' ', 'b', ' ', 'c'] == "a b c";
    NormalizeIs(u, s, "a b c");
  }
}
