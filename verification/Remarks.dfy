/** The unannounced-goods line in a receipt's remarks: its writer
    (src/core/werka/unannounced.rs), its Rust reader (src/erpdb/werka_home.rs) and the LIKE patterns
    of src/erpdb/reader_sql.rs and src/erpdb/reader_pending_sql.rs. */
module Remarks {
  import opened Text

  const PREFIX := "Accord Werka Aytilmagan:"
  const REASON_PREFIX := "Accord Werka Aytilmagan Sabab:"

  /** `replace("\r\n", "\n")`. */
  function NormalizeNewlines(s: string): string {
    if s == [] then []
    else if |s| > 1 && s[0] == '\r' && s[1] == '\n' then "\n" + NormalizeNewlines(s[2..])
    else [s[0]] + NormalizeNewlines(s[1..])
  }

  function StateIn(lines: seq<string>, prefix: string): string {
    if lines == [] then ""
    else if prefix <= Trim(lines[0]) then Lower(Trim(Trim(lines[0])[|prefix|..]))
    else StateIn(lines[1..], prefix)
  }

  /** `extract_werka_unannounced_state`. */
  function ExtractState(remarks: string): string {
    StateIn(Lines(NormalizeNewlines(remarks)), PREFIX)
  }

  /** The state line as the application spells it. */
  function Pattern(state: string): string {
    PREFIX + (" " + state)
  }

  /** LIKE '%Accord Werka Aytilmagan: state%'. */
  predicate LikeState(remarks: string, state: string) {
    Contains(remarks, Pattern(state))
  }

  function KeepLines(lines: seq<string>): seq<string> {
    if lines == [] then []
    else
      var line := Trim(lines[0]);
      (if line == [] || PREFIX <= line || REASON_PREFIX <= line then [] else [line]) + KeepLines(lines[1..])
  }

  function KeptLines(note: string): seq<string> {
    KeepLines(Lines(NormalizeNewlines(note)))
  }

  function StateLine(state: string): string {
    Pattern(Trim(state))
  }

  function ReasonLines(reason: string): seq<string> {
    if Trim(reason) == [] then [] else [REASON_PREFIX + " " + Trim(reason)]
  }

  function StateLines(state: string): seq<string> {
    if Trim(state) == [] then [] else [StateLine(state)]
  }

  /** `upsert_werka_unannounced_in_remarks`. */
  function Upsert(note: string, state: string, reason: string): string {
    Join(KeptLines(note) + StateLines(state) + ReasonLines(reason), "\n")
  }

  // ------------------------------------------------------- reading what was written

  lemma {:induction false} NormalizeLine(line: string, rest: string)
    requires WholeLine(line)
    ensures NormalizeNewlines(line + "\n" + rest) == line + "\n" + NormalizeNewlines(rest)
  {
    var s := line + "\n" + rest;
    if line == [] {
      assert s[0] == '\n' && s[1..] == rest;
    } else {
      assert s[0] == line[0] && s[1..] == line[1..] + "\n" + rest;
      assert Free(line[1..], '\n');
      if |line| == 1 {
        assert line == [line[0]];
        assert s[1..] == "\n" + rest;
        assert s[0] != '\r';
        NormalizeLine([], rest);
        assert [] + "\n" + rest == "\n" + rest;
      } else {
        assert s[1] == line[1] && line[1] in line;
        NormalizeLine(line[1..], rest);
      }
    }
  }

  lemma {:induction false} NormalizeWhole(line: string)
    requires WholeLine(line)
    ensures NormalizeNewlines(line) == line
  {
    if line != [] {
      assert Free(line[1..], '\n');
      assert |line| > 1 ==> line[1] in line;
      NormalizeWhole(line[1..]);
    }
  }

  lemma StateOfCons(line: string, rest: string)
    requires WholeLine(line)
    ensures ExtractState(line + "\n" + rest)
         == if PREFIX <= Trim(line) then Lower(Trim(Trim(line)[|PREFIX|..])) else ExtractState(rest)
  {
    NormalizeLine(line, rest);
    LinesCons(line, NormalizeNewlines(rest));
  }

  lemma StateOfOne(line: string)
    requires WholeLine(line) && line != []
    ensures ExtractState(line) == if PREFIX <= Trim(line) then Lower(Trim(Trim(line)[|PREFIX|..])) else ""
  {
    NormalizeWhole(line);
    LinesOne(line);
    assert [line][1..] == [];
    assert Lines(NormalizeNewlines(line)) == [line];
    assert StateIn([line][1..], PREFIX) == "";
  }

  /** A tight line without newline that does not begin with the prefix. */
  predicate PlainLine(line: string) {
    line != [] && Tight(line) && Free(line, '\n') && !(PREFIX <= line)
  }

  lemma TightIsWhole(line: string)
    requires Tight(line) && Free(line, '\n')
    ensures WholeLine(line)
  {
  }

  lemma {:induction false} StateAfterLines(lines: seq<string>, rest: seq<string>)
    requires forall i | 0 <= i < |lines| :: PlainLine(lines[i])
    requires rest != []
    ensures ExtractState(Join(lines + rest, "\n")) == ExtractState(Join(rest, "\n"))
  {
    if lines == [] {
      assert lines + rest == rest;
    } else {
      var tail := lines[1..] + rest;
      assert lines + rest == [lines[0]] + tail;
      JoinCons(lines[0], tail, "\n");
      assert PlainLine(lines[0]);
      TightIsWhole(lines[0]);
      TrimOfTight(lines[0], IsWhite);
      StateOfCons(lines[0], Join(tail, "\n"));
      StateAfterLines(lines[1..], rest);
    }
  }

  lemma {:induction false} KeptLinesPlain(lines: seq<string>)
    requires AllFree(lines, '\n')
    ensures forall i | 0 <= i < |KeepLines(lines)| :: PlainLine(KeepLines(lines)[i])
  {
    if lines != [] {
      assert AllFree(lines[1..], '\n') by { assert forall i | 0 <= i < |lines[1..]| :: lines[1..][i] == lines[i + 1]; }
      KeptLinesPlain(lines[1..]);
      TrimTwice(lines[0]);
      assert Free(lines[0], '\n');
      var before, after := TrimCuts(lines[0], IsWhite);
      assert forall c | c in Trim(lines[0]) :: c in lines[0];
    }
  }

  lemma LinesFree(s: string)
    ensures AllFree(Lines(s), '\n')
  {
    var parts := Split(s, '\n');
    var kept := NoEmptyLast(parts);
    forall i | 0 <= i < |Lines(s)| ensures Free(Lines(s)[i], '\n') {
      assert kept[i] == parts[i] && Free(parts[i], '\n');
    }
  }

  lemma StateLineReads(state: string)
    requires Trim(state) != [] && Free(Trim(state), '\n')
    ensures WholeLine(StateLine(state)) && Tight(StateLine(state))
    ensures Trim(StateLine(state)[|PREFIX|..]) == Trim(state)
  {
    TrimTwice(state);
    var value := Trim(state);
    var line := StateLine(state);
    assert line[0] == 'A' && line[|line| - 1] == value[|value| - 1];
    assert line[|PREFIX|..] == " " + value;
    TrimIsMiddle(" ", value, [], IsWhite);
    assert " " + value + [] == " " + value;
  }

  /** Reading back what was written gives the lowered state, whatever note and reason hold. */
  lemma WriteThenRead(note: string, state: string, reason: string)
    requires Trim(state) != [] && Free(Trim(state), '\n')
    ensures ExtractState(Upsert(note, state, reason)) == Lower(Trim(state))
  {
    var lines := Lines(NormalizeNewlines(note));
    LinesFree(NormalizeNewlines(note));
    KeptLinesPlain(lines);
    var kept, line := KeptLines(note), StateLine(state);
    var rest := [line] + ReasonLines(reason);
    assert kept + [line] + ReasonLines(reason) == kept + rest;
    StateAfterLines(kept, rest);
    StateLineReads(state);
    TrimOfTight(line, IsWhite);
    if ReasonLines(reason) == [] {
      assert rest == [line];
      StateOfOne(line);
    } else {
      JoinCons(line, ReasonLines(reason), "\n");
      StateOfCons(line, Join(ReasonLines(reason), "\n"));
    }
  }

  /** What is written when there was no note: one line for the state and one for the reason. */
  lemma FirstWritten(state: string, reason: string)
    requires Trim(state) != "" && Trim(reason) != ""
    ensures Upsert("", state, reason)
         == "Accord Werka Aytilmagan: " + Trim(state) + "\n" + "Accord Werka Aytilmagan Sabab: " + Trim(reason)
  {
    assert KeptLines("") == [];
    assert [] + StateLines(state) + ReasonLines(reason) == [StateLine(state)] + ReasonLines(reason);
    JoinCons(StateLine(state), ReasonLines(reason), "\n");
    SpelledLines(Trim(state), Trim(reason));
  }

  lemma SpelledLines(state: string, reason: string)
    ensures PREFIX + (" " + state) == "Accord Werka Aytilmagan: " + state
    ensures REASON_PREFIX + " " + reason == "Accord Werka Aytilmagan Sabab: " + reason
  {
    assert PREFIX + " " == "Accord Werka Aytilmagan: ";
    assert PREFIX + (" " + state) == PREFIX + " " + state;
    assert REASON_PREFIX + " " == "Accord Werka Aytilmagan Sabab: ";
  }

  // --------------------------------------------------------------- the LIKE pattern

  lemma ContainsAround(a: string, c: char, b: string, needle: string)
    requires Free(needle, c) && needle != []
    ensures Contains(a + [c] + b, needle) <==> Contains(a, needle) || Contains(b, needle)
  {
    var s := a + [c] + b;
    if Contains(a, needle) {
      var x, y := ContainsElim(a, needle);
      ContainsIntro(s, x, needle, y + [c] + b);
    }
    if Contains(b, needle) {
      var x, y := ContainsElim(b, needle);
      ContainsIntro(s, a + [c] + x, needle, y);
    }
    if Contains(s, needle) {
      var i: nat :| i <= |s| && OccursAt(s, needle, i);
      OccursOnOneSide(a, c, b, needle, i);
    }
  }

  lemma OccursOnOneSide(a: string, c: char, b: string, needle: string, i: nat)
    requires Free(needle, c) && needle != [] && OccursAt(a + [c] + b, needle, i)
    ensures Contains(a, needle) || Contains(b, needle)
  {
    var s := a + [c] + b;
    forall k | i <= k < i + |needle| ensures s[k] != c {
      assert s[i..i + |needle|][k - i] == s[k];
      assert needle[k - i] in needle;
    }
    assert s[|a|] == c;
    if i + |needle| <= |a| {
      assert a[i..i + |needle|] == s[i..i + |needle|];
      assert OccursAt(a, needle, i);
    } else {
      var j := i - |a| - 1;
      assert b[j..j + |needle|] == s[i..i + |needle|];
      assert OccursAt(b, needle, j);
    }
  }

  ghost predicate SomeLineContains(lines: seq<string>, needle: string) {
    exists i | 0 <= i < |lines| :: Contains(lines[i], needle)
  }

  lemma {:induction false} ContainsInJoin(lines: seq<string>, needle: string)
    requires Free(needle, '\n') && needle != []
    ensures Contains(Join(lines, "\n"), needle) <==> SomeLineContains(lines, needle)
  {
    if lines == [] {
      assert forall i: nat :: !OccursAt([], needle, i);
    } else if |lines| > 1 {
      ContainsInJoin(lines[1..], needle);
      ContainsAround(lines[0], '\n', Join(lines[1..], "\n"), needle);
      assert SomeLineContains(lines, needle)
             <==> Contains(lines[0], needle) || SomeLineContains(lines[1..], needle) by {
        assert forall i | 0 <= i < |lines| - 1 :: lines[1..][i] == lines[i + 1];
      }
    } else {
      assert Join(lines, "\n") == lines[0];
    }
  }

  /** The fixed part of the reason line hides no state prefix. */
  lemma PastReasonHead(reason: string, i: nat)
    requires OccursAt(REASON_PREFIX + " " + reason, PREFIX, i)
    ensures i >= |REASON_PREFIX + " "|
  {
    var head := REASON_PREFIX + " ";
    var line := head + reason;
    assert line[i] == line[i..i + |PREFIX|][0] == 'A';
    assert line[i + 1] == line[i..i + |PREFIX|][1] == 'c';
    assert line[i + 23] == line[i..i + |PREFIX|][23] == ':';
    assert forall k | 0 <= k < |head| :: line[k] == head[k];
    assert i < |head| ==> i == 0 || i == 13;
    assert head[14] == 'y' && head[23] == ' ';
  }

  /** The reason line looks like a state line only when the reason itself quotes the prefix. */
  lemma ReasonLineClear(reason: string)
    requires Contains(REASON_PREFIX + " " + reason, PREFIX)
    ensures Contains(reason, PREFIX)
  {
    var head := REASON_PREFIX + " ";
    var line := head + reason;
    var i: nat :| i <= |line| && OccursAt(line, PREFIX, i);
    PastReasonHead(reason, i);
    var j := i - |head|;
    assert reason[j..j + |PREFIX|] == line[i..i + |PREFIX|];
    assert OccursAt(reason, PREFIX, j);
  }

  const STATES := {"pending", "approved", "rejected"}

  // ------------------------------------------------------ lines with their line ends

  /** A line with or without the carriage return of its line end. */
  predicate Chopped(line: string, cut: string) {
    line == cut || line == cut + "\r"
  }

  ghost predicate AllChopped(lines: seq<string>, cuts: seq<string>) {
    |lines| == |cuts| && forall i | 0 <= i < |lines| :: Chopped(lines[i], cuts[i])
  }

  lemma ChoppedCons(a: string, b: string, lines: seq<string>, cuts: seq<string>)
    requires Chopped(a, b) && AllChopped(lines, cuts)
    ensures AllChopped([a] + lines, [b] + cuts)
  {
  }

  /** One more character in front of the first line. */
  lemma ChoppedGrows(c: char, lines: seq<string>, cuts: seq<string>)
    requires lines != [] && AllChopped(lines, cuts)
    ensures AllChopped([[c] + lines[0]] + lines[1..], [[c] + cuts[0]] + cuts[1..])
  {
    assert Chopped(lines[0], cuts[0]);
    assert [c] + (cuts[0] + "\r") == [c] + cuts[0] + "\r";
    forall i | 0 <= i < |lines[1..]| ensures Chopped(lines[1..][i], cuts[1..][i]) {
      assert Chopped(lines[i + 1], cuts[i + 1]);
    }
    ChoppedCons([c] + lines[0], [c] + cuts[0], lines[1..], cuts[1..]);
  }

  lemma {:induction false} NormalizedLines(s: string)
    ensures AllChopped(Split(s, '\n'), Split(NormalizeNewlines(s), '\n'))
  {
    if s != [] {
      assert s == [s[0]] + s[1..];
      SplitNext(s[0], s[1..], '\n');
      if |s| > 1 && s[0] == '\r' && s[1] == '\n' {
        NormalizedLines(s[2..]);
        assert s[1..] == ['\n'] + s[2..];
        SplitNext('\n', s[2..], '\n');
        SplitNext('\n', NormalizeNewlines(s[2..]), '\n');
        CrlfLines(Split(s[1..], '\n'), Split(s[2..], '\n'), Split(NormalizeNewlines(s[2..]), '\n'));
      } else {
        NormalizedLines(s[1..]);
        SplitNext(s[0], NormalizeNewlines(s[1..]), '\n');
        if s[0] == '\n' {
          ChoppedCons([], [], Split(s[1..], '\n'), Split(NormalizeNewlines(s[1..]), '\n'));
        } else {
          ChoppedGrows(s[0], Split(s[1..], '\n'), Split(NormalizeNewlines(s[1..]), '\n'));
        }
      }
    }
  }

  lemma CrlfLines(next: seq<string>, lines: seq<string>, cuts: seq<string>)
    requires next == [[]] + lines && AllChopped(lines, cuts)
    ensures AllChopped([['\r'] + next[0]] + next[1..], [[]] + cuts)
  {
    assert next[1..] == lines && ['\r'] + next[0] == [] + "\r";
    ChoppedCons("\r", [], lines, cuts);
  }

  lemma TrimOfCr(line: string)
    ensures Trim(line + "\r") == Trim(line)
  {
    var before, after := TrimCuts(line, IsWhite);
    assert line + "\r" == before + Trim(line) + (after + "\r");
    TrimIsMiddle(before, Trim(line), after + "\r", IsWhite);
  }

  lemma TrimChopped(line: string, cut: string)
    requires Chopped(line, cut)
    ensures Trim(line) == Trim(StripCr(cut))
  {
    TrimOfCr(cut);
    if StripCr(cut) != cut {
      assert cut == StripCr(cut) + "\r";
      TrimOfCr(StripCr(cut));
    }
  }

  lemma {:induction false} StateInAlike(a: seq<string>, b: seq<string>, prefix: string)
    requires |a| == |b| && forall i | 0 <= i < |a| :: Trim(a[i]) == Trim(b[i])
    ensures StateIn(a, prefix) == StateIn(b, prefix)
  {
    if a != [] {
      assert forall i | 0 <= i < |a| - 1 :: a[1..][i] == a[i + 1] && b[1..][i] == b[i + 1];
      StateInAlike(a[1..], b[1..], prefix);
    }
  }

  lemma {:induction false} EmptyLastLine(lines: seq<string>, prefix: string)
    ensures StateIn(lines + [[]], prefix) == StateIn(lines, prefix)
  {
    var all := lines + [[]];
    if lines == [] {
      assert all[1..] == [];
    } else {
      assert all[0] == lines[0] && all[1..] == lines[1..] + [[]];
      EmptyLastLine(lines[1..], prefix);
    }
  }

  lemma StateInStripped(s: string, prefix: string)
    ensures StateIn(Lines(s), prefix) == StateIn(StripAll(Split(s, '\n')), prefix)
  {
    var parts := Split(s, '\n');
    var n := |parts| - 1;
    if parts[n] == [] {
      assert Lines(s) == StripAll(parts[..n]);
      assert StripAll(parts) == StripAll(parts[..n]) + [[]];
      EmptyLastLine(StripAll(parts[..n]), prefix);
    } else {
      assert Lines(s) == StripAll(parts);
    }
  }

  lemma ChoppedAlike(lines: seq<string>, cuts: seq<string>, prefix: string)
    requires AllChopped(lines, cuts)
    ensures StateIn(lines, prefix) == StateIn(StripAll(cuts), prefix)
  {
    forall i | 0 <= i < |lines| ensures Trim(lines[i]) == Trim(StripAll(cuts)[i]) {
      assert Chopped(lines[i], cuts[i]);
      TrimChopped(lines[i], cuts[i]);
    }
    StateInAlike(lines, StripAll(cuts), prefix);
  }

  lemma LinesBetween(s: string, prefix: string)
    ensures StateIn(Lines(NormalizeNewlines(s)), prefix) == StateIn(Split(s, '\n'), prefix)
  {
    NormalizedLines(s);
    StateInStripped(NormalizeNewlines(s), prefix);
    ChoppedAlike(Split(s, '\n'), Split(NormalizeNewlines(s), '\n'), prefix);
  }

  /** The reader sees the lines between the newlines, however they end. */
  lemma ReaderSeesLines(remarks: string)
    ensures ExtractState(remarks) == StateIn(Split(remarks, '\n'), PREFIX)
  {
    LinesBetween(remarks, PREFIX);
  }

  // ------------------------------------------------------- where the two readers agree

  /** The first line that begins with the prefix. */
  function StateAt(lines: seq<string>, prefix: string): (k: nat)
    ensures k <= |lines|
    ensures k < |lines| ==> prefix <= Trim(lines[k])
    ensures forall i | 0 <= i < k :: !(prefix <= Trim(lines[i]))
  {
    if lines == [] || prefix <= Trim(lines[0]) then 0 else 1 + StateAt(lines[1..], prefix)
  }

  /** What follows the prefix on that line. */
  function StateText(remarks: string): Option<string> {
    var lines := Split(remarks, '\n');
    var k := StateAt(lines, PREFIX);
    if k < |lines| then Some(Trim(lines[k])[|PREFIX|..]) else None
  }

  /** The pattern at a place of a trimmed line other than the start of the state line. */
  ghost predicate QuotedAt(lines: seq<string>, prefix: string, pattern: string, i: nat, k: nat)
    requires i < |lines|
  {
    OccursAt(Trim(lines[i]), pattern, k) && !(i == StateAt(lines, prefix) && k == 0)
  }

  ghost predicate QuotesIn(lines: seq<string>, prefix: string, pattern: string) {
    exists i: nat, k: nat | i < |lines| :: QuotedAt(lines, prefix, pattern, i, k)
  }

  ghost predicate Quotes(remarks: string, wanted: string) {
    QuotesIn(Split(remarks, '\n'), PREFIX, Pattern(wanted))
  }

  /** The state line says the wanted word, in any spelling and after any white space. */
  predicate Says(text: string, wanted: string) {
    Lower(Trim(text)) == wanted
  }

  /** The state line says the word as the pattern spells it. */
  predicate Spells(text: string, wanted: string) {
    text == " " + wanted
  }

  /** The state line says a longer word that begins as the pattern does. */
  predicate RunsOn(text: string, wanted: string) {
    " " + wanted < text
  }

  /** When both readers see the wanted state, or neither does: the state line spells it; or says it
      in another spelling and the pattern is quoted elsewhere; or says something else that does not
      begin like it, and the pattern is not quoted. */
  ghost predicate ReadsAlike(remarks: string, wanted: string) {
    match StateText(remarks)
    case None => !Quotes(remarks, wanted)
    case Some(text) =>
      || Spells(text, wanted)
      || (Says(text, wanted) && Quotes(remarks, wanted))
      || (!Says(text, wanted) && !RunsOn(text, wanted) && !Quotes(remarks, wanted))
  }

  predicate Word(wanted: string) {
    wanted != [] && Tight(wanted) && Free(wanted, '\n') && Lower(wanted) == wanted
  }

  lemma {:induction false} StateInIs(lines: seq<string>, prefix: string)
    ensures StateIn(lines, prefix)
         == if StateAt(lines, prefix) < |lines| then Lower(Trim(Trim(lines[StateAt(lines, prefix)])[|prefix|..]))
            else ""
  {
    if lines != [] && !(prefix <= Trim(lines[0])) { StateInIs(lines[1..], prefix); }
  }

  lemma ReaderSays(remarks: string, wanted: string)
    requires wanted != []
    ensures ExtractState(remarks) == wanted <==> StateText(remarks).Some? && Says(StateText(remarks).value, wanted)
  {
    ReaderSeesLines(remarks);
    StateInIs(Split(remarks, '\n'), PREFIX);
  }

  lemma WhiteEnds(before: string, after: string)
    requires forall c | c in before + after :: IsWhite(c)
    ensures forall k | 0 <= k < |before| :: IsWhite(before[k])
    ensures forall k | 0 <= k < |after| :: IsWhite(after[k])
  {
    forall k | 0 <= k < |before| ensures IsWhite(before[k]) { assert before[k] in before + after; }
    forall k | 0 <= k < |after| ensures IsWhite(after[k]) { assert after[k] in before + after; }
  }

  lemma OccursInside(before: string, middle: string, after: string, needle: string, i: nat)
    requires needle != [] && Tight(needle) && (forall c | c in before + after :: IsWhite(c))
    requires OccursAt(before + middle + after, needle, i)
    ensures |before| <= i && OccursAt(middle, needle, i - |before|)
  {
    var line, n := before + middle + after, |needle|;
    assert line[i] == line[i..i + n][0] == needle[0];
    assert line[i + n - 1] == line[i..i + n][n - 1] == needle[n - 1];
    WhiteEnds(before, after);
    assert forall k | 0 <= k < |before| :: IsWhite(line[k]);
    assert forall k | |before + middle| <= k < |line| :: IsWhite(line[k]);
    var j := i - |before|;
    assert middle[j..j + n] == line[i..i + n];
  }

  lemma PatternShape(wanted: string)
    requires Word(wanted)
    ensures var pattern := Pattern(wanted);
            pattern != [] && Tight(pattern) && Free(pattern, '\n') && PREFIX <= pattern
  {
    var pattern := Pattern(wanted);
    assert pattern[0] == 'A' && pattern[|pattern| - 1] == wanted[|wanted| - 1];
    assert pattern[..|PREFIX|] == PREFIX;
  }

  lemma OccursInLine(line: string, needle: string, k: nat)
    requires OccursAt(Trim(line), needle, k)
    ensures Contains(line, needle)
  {
    var before, after := TrimCuts(line, IsWhite);
    var t := Trim(line);
    assert t == t[..k] + needle + t[k + |needle|..];
    assert line == (before + t[..k]) + needle + (t[k + |needle|..] + after);
    ContainsIntro(line, before + t[..k], needle, t[k + |needle|..] + after);
  }

  lemma LineOccurs(line: string, needle: string) returns (k: nat)
    requires needle != [] && Tight(needle) && Contains(line, needle)
    ensures OccursAt(Trim(line), needle, k)
  {
    var before, after := TrimCuts(line, IsWhite);
    var i: nat :| i <= |line| && OccursAt(line, needle, i);
    OccursInside(before, Trim(line), after, needle, i);
    k := i - |before|;
  }

  /** The pattern is found at the start of the state line or quoted elsewhere. */
  lemma FoundInLines(lines: seq<string>, prefix: string, pattern: string)
    requires pattern != [] && Tight(pattern)
    ensures SomeLineContains(lines, pattern)
       <==> (StateAt(lines, prefix) < |lines| && pattern <= Trim(lines[StateAt(lines, prefix)]))
            || QuotesIn(lines, prefix, pattern)
  {
    var s := StateAt(lines, prefix);
    if SomeLineContains(lines, pattern) {
      var i: nat :| i < |lines| && Contains(lines[i], pattern);
      var k := LineOccurs(lines[i], pattern);
      assert (i == s && k == 0) || QuotedAt(lines, prefix, pattern, i, k);
    }
    if s < |lines| && pattern <= Trim(lines[s]) {
      OccursInLine(lines[s], pattern, 0);
    }
    if QuotesIn(lines, prefix, pattern) {
      var i: nat, k: nat :| i < |lines| && QuotedAt(lines, prefix, pattern, i, k);
      OccursInLine(lines[i], pattern, k);
    }
  }

  lemma StartsWith(line: string, prefix: string, tail: string)
    requires prefix <= line
    ensures prefix + tail <= line <==> tail <= line[|prefix|..]
  {
    assert line == prefix + line[|prefix|..];
    if prefix + tail <= line {
      assert line[|prefix|..][..|tail|] == line[..|prefix + tail|][|prefix|..];
    }
  }

  lemma PatternFound(remarks: string, wanted: string)
    requires Word(wanted)
    ensures LikeState(remarks, wanted)
       <==> (StateText(remarks).Some? && " " + wanted <= StateText(remarks).value) || Quotes(remarks, wanted)
  {
    var lines, pattern := Split(remarks, '\n'), Pattern(wanted);
    PatternShape(wanted);
    JoinOfSplit(remarks, '\n');
    ContainsInJoin(lines, pattern);
    FoundInLines(lines, PREFIX, pattern);
    var s := StateAt(lines, PREFIX);
    if s < |lines| {
      StartsWith(Trim(lines[s]), PREFIX, " " + wanted);
    }
  }

  /** The text after the prefix has no white space at its end. */
  lemma TextEnds(line: string, n: nat)
    requires n <= |Trim(line)|
    ensures var text := Trim(line)[n..]; text == [] || !IsWhite(text[|text| - 1])
  {
    TrimTwice(line);
  }

  lemma StateTextEnds(remarks: string)
    requires StateText(remarks).Some?
    ensures var text := StateText(remarks).value; text == [] || !IsWhite(text[|text| - 1])
  {
    var lines := Split(remarks, '\n');
    TextEnds(lines[StateAt(lines, PREFIX)], |PREFIX|);
  }

  lemma AfterBlank(word: string)
    requires Tight(word)
    ensures Trim(" " + word) == word
  {
    assert " " + word == " " + word + [];
    TrimIsMiddle(" ", word, [], IsWhite);
  }

  lemma EndsWhite(front: string, after: string, text: string)
    requires text == front + after && after != [] && (forall k | 0 <= k < |after| :: IsWhite(after[k]))
    ensures IsWhite(text[|text| - 1])
  {
    assert text[|text| - 1] == after[|after| - 1];
  }

  lemma SaysAndBegins(text: string, wanted: string)
    requires Word(wanted) && (text == [] || !IsWhite(text[|text| - 1]))
    ensures Says(text, wanted) && " " + wanted <= text <==> Spells(text, wanted)
  {
    if Spells(text, wanted) { AfterBlank(wanted); }
    if Says(text, wanted) && " " + wanted <= text {
      var before, after := TrimCuts(text, IsWhite);
      WhiteEnds(before, after);
      if after != [] { EndsWhite(before + Trim(text), after, text); }
      SaidAfterBlank(before, Trim(text), wanted, text);
    }
  }

  lemma SaidAfterBlank(before: string, said: string, wanted: string, text: string)
    requires Word(wanted) && text == before + said && (forall k | 0 <= k < |before| :: IsWhite(before[k]))
    requires Lower(said) == wanted && " " + wanted <= text
    ensures text == " " + wanted
  {
    assert text[1] == wanted[0];
    assert forall k | 0 <= k < |before| :: text[k] == before[k];
    assert |before| <= 1 && |said| == |wanted|;
  }

  lemma BeginsIs(text: string, wanted: string)
    ensures " " + wanted <= text <==> Spells(text, wanted) || RunsOn(text, wanted)
  {
  }

  /** The LIKE pattern and the Rust reader see the same state exactly on these remarks, whatever
      text they hold and however many state lines. */
  lemma RemarksReadAlike(remarks: string, wanted: string)
    requires Word(wanted)
    ensures (LikeState(remarks, wanted) <==> ExtractState(remarks) == wanted) <==> ReadsAlike(remarks, wanted)
  {
    PatternFound(remarks, wanted);
    ReaderSays(remarks, wanted);
    match StateText(remarks) {
      case None =>
      case Some(text) =>
        StateTextEnds(remarks);
        SaysAndBegins(text, wanted);
        BeginsIs(text, wanted);
    }
  }

  // ------------------------------------------------- remarks with a plain state line

  predicate SpelledLine(line: string) {
    exists state | state in STATES :: Trim(line) == Pattern(state)
  }

  /** At most one line mentions the prefix, and that line is the prefix, one blank and a state. */
  ghost predicate PlainRemarks(remarks: string) {
    var lines := Split(remarks, '\n');
    && (forall i | 0 <= i < |lines| && Contains(lines[i], PREFIX) :: SpelledLine(lines[i]))
    && (forall i, j | 0 <= i < j < |lines| :: !Contains(lines[i], PREFIX) || !Contains(lines[j], PREFIX))
  }

  lemma OnlyAtStart(state: string, wanted: string, k: nat)
    requires state in STATES && wanted in {"pending", "approved"}
    requires OccursAt(Pattern(state), Pattern(wanted), k)
    ensures k == 0
  {
    var line, needle := Pattern(state), Pattern(wanted);
    assert k <= 1;
    assert line[k] == line[k..k + |needle|][0] == 'A';
    assert line[1] == 'c';
  }

  lemma StateWords(state: string)
    requires state in STATES
    ensures Word(state) && Trim(state) == state
  {
    TrimOfTight(state, IsWhite);
  }

  lemma OtherStates(state: string, wanted: string)
    requires state in STATES && wanted in {"pending", "approved"} && state != wanted
    ensures !(wanted <= state)
  {
    assert state[0] != wanted[0];
  }

  lemma PastBlank(a: string, b: string)
    requires " " + a <= " " + b
    ensures a <= b
  {
    assert a == (" " + a)[1..] && b == (" " + b)[1..];
  }

  /** A text that spells another state neither says the wanted one nor runs on from it. */
  lemma OtherText(state: string, wanted: string)
    requires Word(state) && !(wanted <= state)
    ensures !Says(" " + state, wanted) && !RunsOn(" " + state, wanted)
  {
    AfterBlank(state);
    if RunsOn(" " + state, wanted) { PastBlank(wanted, state); }
  }

  lemma OccursShorter(s: string, prefix: string, needle: string, k: nat)
    requires prefix <= needle && OccursAt(s, needle, k)
    ensures OccursAt(s, prefix, k)
  {
    assert s[k..k + |prefix|] == s[k..k + |needle|][..|prefix|];
  }

  lemma BeginsMentions(line: string, prefix: string)
    requires prefix <= Trim(line)
    ensures Contains(line, prefix)
  {
    OccursInLine(line, prefix, 0);
  }

  lemma MentionsPrefix(line: string, pattern: string, k: nat)
    requires PREFIX <= pattern && OccursAt(Trim(line), pattern, k)
    ensures Contains(line, PREFIX)
  {
    OccursShorter(Trim(line), PREFIX, pattern, k);
    OccursInLine(line, PREFIX, k);
  }

  lemma TightPrefix()
    ensures PREFIX != [] && Tight(PREFIX) && Free(PREFIX, '\n')
  {
  }

  lemma StateLineMentions(lines: seq<string>)
    requires StateAt(lines, PREFIX) < |lines|
    ensures Contains(lines[StateAt(lines, PREFIX)], PREFIX)
  {
    BeginsMentions(lines[StateAt(lines, PREFIX)], PREFIX);
  }

  lemma SpelledIsState(lines: seq<string>, i: nat)
    requires i < |lines| && SpelledLine(lines[i])
    ensures StateAt(lines, PREFIX) <= i
  {
    var state :| state in STATES && Trim(lines[i]) == Pattern(state);
    AfterPrefix(PREFIX, " " + state);
    BeginsHere(lines, PREFIX, i);
  }

  lemma BeginsHere(lines: seq<string>, prefix: string, i: nat)
    requires i < |lines| && prefix <= Trim(lines[i])
    ensures StateAt(lines, prefix) <= i
  {
  }

  lemma PlainQuotesNothing(remarks: string, wanted: string)
    requires PlainRemarks(remarks) && wanted in {"pending", "approved"}
    ensures !Quotes(remarks, wanted)
  {
    var lines, pattern := Split(remarks, '\n'), Pattern(wanted);
    StateWords(wanted);
    PatternShape(wanted);
    forall i: nat, k: nat | i < |lines| && QuotedAt(lines, PREFIX, pattern, i, k) ensures false {
      MentionsPrefix(lines[i], pattern, k);
      SpelledIsState(lines, i);
      StateLineMentions(lines);
      var state :| state in STATES && Trim(lines[i]) == Pattern(state);
      OnlyAtStart(state, wanted, k);
    }
  }

  lemma AfterPrefix(prefix: string, rest: string)
    ensures (prefix + rest)[|prefix|..] == rest && prefix <= prefix + rest
  {
  }

  lemma TextOfSpelled(remarks: string, state: string)
    requires var lines := Split(remarks, '\n');
             StateAt(lines, PREFIX) < |lines| && Trim(lines[StateAt(lines, PREFIX)]) == Pattern(state)
    ensures StateText(remarks) == Some(" " + state)
  {
    AfterPrefix(PREFIX, " " + state);
  }

  /** Remarks with at most one state line, spelled as the application spells it, are read alike. */
  lemma PlainReadAlike(remarks: string, wanted: string)
    requires PlainRemarks(remarks) && wanted in {"pending", "approved"}
    ensures ReadsAlike(remarks, wanted)
  {
    PlainQuotesNothing(remarks, wanted);
    var lines := Split(remarks, '\n');
    var s := StateAt(lines, PREFIX);
    if s < |lines| {
      StateLineMentions(lines);
      var state :| state in STATES && Trim(lines[s]) == Pattern(state);
      TextOfSpelled(remarks, state);
      StateWords(state);
      if state != wanted {
        OtherStates(state, wanted);
        OtherText(state, wanted);
      }
    }
  }

  /** Remarks that do not mention the prefix are plain. */
  lemma UnmentionedIsPlain(remarks: string)
    requires !Contains(remarks, PREFIX)
    ensures PlainRemarks(remarks)
  {
    TightPrefix();
    JoinOfSplit(remarks, '\n');
    ContainsInJoin(Split(remarks, '\n'), PREFIX);
  }

  lemma LongerNeedle(s: string, a: string, b: string)
    requires Contains(s, a + b)
    ensures Contains(s, a)
  {
    var before, after := ContainsElim(s, a + b);
    assert s == before + a + (b + after);
    ContainsIntro(s, before, a, b + after);
  }

  lemma UnmentionedIsUnlike(remarks: string, wanted: string)
    requires !Contains(remarks, PREFIX)
    ensures !LikeState(remarks, wanted)
  {
    if LikeState(remarks, wanted) {
      LongerNeedle(remarks, PREFIX, " " + wanted);
    }
  }

  ghost predicate NoneQuote(lines: seq<string>) {
    forall i | 0 <= i < |lines| :: !Contains(lines[i], PREFIX)
  }

  lemma ReasonQuotesNothing(reason: string)
    requires !Contains(Trim(reason), PREFIX)
    ensures NoneQuote(Split(REASON_PREFIX + " " + Trim(reason), '\n'))
  {
    var line := REASON_PREFIX + " " + Trim(reason);
    if Contains(line, PREFIX) { ReasonLineClear(Trim(reason)); }
    TightPrefix();
    JoinOfSplit(line, '\n');
    ContainsInJoin(Split(line, '\n'), PREFIX);
  }

  lemma KeptFree(note: string)
    ensures AllFree(KeptLines(note), '\n')
  {
    LinesFree(NormalizeNewlines(note));
    KeptLinesPlain(Lines(NormalizeNewlines(note)));
    assert forall i | 0 <= i < |KeptLines(note)| :: PlainLine(KeptLines(note)[i]);
  }

  lemma JoinedLines(kept: seq<string>, line: string, reasons: seq<string>) returns (after: seq<string>)
    requires AllFree(kept, '\n') && Free(line, '\n') && |reasons| <= 1
    ensures Split(Join(kept + [line] + reasons, "\n"), '\n') == kept + [line] + after
    ensures after == if reasons == [] then [] else Split(reasons[0], '\n')
  {
    if reasons == [] {
      after := [];
      assert kept + [line] + reasons == kept + [line];
      SplitOfJoinLast(kept, line, '\n');
      SplitFree(line, '\n');
    } else {
      after := Split(reasons[0], '\n');
      assert kept + [line] + reasons == (kept + [line]) + [reasons[0]];
      SplitOfJoinLast(kept + [line], reasons[0], '\n');
    }
  }

  lemma StateLineOf(state: string)
    requires state in STATES
    ensures StateLines(state) == [Pattern(state)] && Free(Pattern(state), '\n')
  {
    StateWords(state);
    PatternShape(state);
  }

  /** The lines of written remarks. */
  lemma WrittenLines(note: string, state: string, reason: string) returns (after: seq<string>)
    requires state in STATES && !Contains(Trim(reason), PREFIX)
    ensures Split(Upsert(note, state, reason), '\n') == KeptLines(note) + [Pattern(state)] + after
    ensures NoneQuote(after)
  {
    KeptFree(note);
    StateLineOf(state);
    after := JoinedLines(KeptLines(note), Pattern(state), ReasonLines(reason));
    ReasonQuotesNothing(reason);
  }

  lemma OnlyMiddle(kept: seq<string>, line: string, after: seq<string>, i: nat)
    requires NoneQuote(kept) && NoneQuote(after)
    requires i < |kept + [line] + after| && Contains((kept + [line] + after)[i], PREFIX)
    ensures i == |kept|
  {
  }

  /** What the application writes is plain, when no line of the note and not the reason mentions the
      prefix. */
  lemma WrittenIsPlain(note: string, state: string, reason: string)
    requires state in STATES && NoneQuote(KeptLines(note)) && !Contains(Trim(reason), PREFIX)
    ensures PlainRemarks(Upsert(note, state, reason))
  {
    var kept, line := KeptLines(note), Pattern(state);
    var after := WrittenLines(note, state, reason);
    var lines := kept + [line] + after;
    StateWords(state);
    PatternShape(state);
    TrimOfTight(line, IsWhite);
    forall i: nat | i < |lines| && Contains(lines[i], PREFIX) ensures i == |kept| {
      OnlyMiddle(kept, line, after, i);
    }
    assert lines[|kept|] == line;
  }

  /** On remarks the application wrote, the LIKE pattern and the Rust reader agree, as long as no
      line of the note and not the reason itself quotes the prefix. */
  lemma LikeAgrees(note: string, state: string, reason: string, wanted: string)
    requires state in STATES && wanted in {"pending", "approved"}
    requires NoneQuote(KeptLines(note)) && !Contains(Trim(reason), PREFIX)
    ensures LikeState(Upsert(note, state, reason), wanted) <==> ExtractState(Upsert(note, state, reason)) == wanted
  {
    WrittenIsPlain(note, state, reason);
    PlainReadAlike(Upsert(note, state, reason), wanted);
    StateWords(wanted);
    RemarksReadAlike(Upsert(note, state, reason), wanted);
  }

  // ----------------------------------------------------- three ways to be read apart

  lemma QuietLine(lead: string, pattern: string)
    requires lead != [] && !IsWhite(lead[0]) && lead[0] != 'A' && Free(lead, '\n')
    requires pattern != [] && !IsWhite(pattern[|pattern| - 1]) && Free(pattern, '\n')
    ensures ExtractState(lead + pattern) == ""
  {
    var text := lead + pattern;
    assert text[0] == lead[0] && text[|text| - 1] == pattern[|pattern| - 1];
    TightIsWhole(text);
    StateOfOne(text);
    TrimOfTight(text, IsWhite);
  }

  /** The query sees a state that is only quoted after other words. */
  lemma QuotedPatternDiffers(lead: string, wanted: string)
    requires lead != [] && !IsWhite(lead[0]) && lead[0] != 'A' && Free(lead, '\n') && Word(wanted)
    ensures LikeState(lead + Pattern(wanted), wanted)
    ensures ExtractState(lead + Pattern(wanted)) == ""
  {
    var pattern := Pattern(wanted);
    assert lead + pattern == lead + pattern + "";
    ContainsIntro(lead + pattern, lead, pattern, "");
    PatternShape(wanted);
    QuietLine(lead, pattern);
  }

  lemma OneLineState(text: string)
    requires text != [] && !IsWhite(text[|text| - 1]) && Free(text, '\n')
    ensures ExtractState(PREFIX + text) == Lower(Trim(text))
  {
    var line := PREFIX + text;
    assert line[0] == 'A' && line[|line| - 1] == text[|text| - 1];
    TightPrefix();
    TightIsWhole(line);
    StateOfOne(line);
    TrimOfTight(line, IsWhite);
    assert line[|PREFIX|..] == text;
  }

  lemma LongerWord(wanted: string, more: string)
    requires Word(wanted) && more != [] && !IsWhite(more[|more| - 1])
    ensures Trim(" " + (wanted + more)) == wanted + more
  {
    assert (wanted + more)[0] == wanted[0];
    AfterBlank(wanted + more);
  }

  lemma LongerText(text: string, more: string)
    ensures Contains(PREFIX + (text + more), PREFIX + text)
  {
    PrefixFound(PREFIX, text, more);
  }

  lemma PrefixFound(a: string, b: string, c: string)
    ensures Contains(a + (b + c), a + b)
  {
    assert a + (b + c) == [] + (a + b) + c;
    ContainsIntro(a + (b + c), [], a + b, c);
  }

  /** The query sees a state in a longer word that begins with it. */
  lemma LongerWordDiffers(wanted: string, more: string)
    requires Word(wanted) && more != [] && !IsWhite(more[|more| - 1]) && Free(more, '\n')
    ensures LikeState(PREFIX + (" " + (wanted + more)), wanted)
    ensures ExtractState(PREFIX + (" " + (wanted + more))) == Lower(wanted + more) != wanted
  {
    var remarks := PREFIX + (" " + (wanted + more));
    LongerText(" " + wanted, more);
    assert " " + (wanted + more) == " " + wanted + more;
    OneLineState(" " + (wanted + more));
    LongerWord(wanted, more);
  }

  /** Rust sees a state that follows the prefix without a blank; the query does not. */
  lemma UnspacedStateDiffers(wanted: string)
    requires Word(wanted)
    ensures ExtractState(PREFIX + wanted) == wanted
    ensures !LikeState(PREFIX + wanted, wanted)
  {
    OneLineState(wanted);
    TrimOfTight(wanted, IsWhite);
  }
}
