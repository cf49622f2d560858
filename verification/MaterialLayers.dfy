/** `parse_material_layers` of src/core/formula.rs: reading "material micron + material micron"
    by scanning backwards from the last digit. */
module MaterialLayers {
  import opened Text
  import opened Formula

  predicate IsMicronChar(c: char) {
    IsDigit(c) || c == '/' || c == ',' || c == '.'
  }

  predicate KeptInMicron(c: char) {
    IsDigit(c) || c == '/'
  }

  // ---------------------------------------------------------------- the scan

  /** The position just after the last ASCII digit, 0 when there is none. */
  function AfterLastDigit(s: string): (n: nat)
    ensures n <= |s|
    ensures n > 0 ==> IsDigit(s[n - 1])
    ensures forall i | n <= i < |s| :: !IsDigit(s[i])
  {
    if s == [] then 0
    else if IsDigit(s[|s| - 1]) then |s|
    else AfterLastDigit(s[..|s| - 1])
  }

  /** Where the run of micron characters that ends at `last` begins. */
  ghost predicate RunStart(s: string, last: nat, start: nat)
    requires last < |s|
  {
    && start <= last
    && (forall i | start <= i < last :: IsMicronChar(s[i]))
    && (start > 0 ==> !IsMicronChar(s[start - 1]))
  }

  function MicronStart(s: string, last: nat): (start: nat)
    requires last < |s|
    ensures RunStart(s, last, start)
  {
    if last > 0 && IsMicronChar(s[last - 1]) then MicronStart(s, last - 1) else last
  }

  /** The loop of `parse_material_layer`. */
  method ScanBack(s: string, last: nat) returns (start: nat)
    requires last < |s|
    ensures start == MicronStart(s, last)
  {
    start := last;
    while start > 0
      invariant start <= last
      invariant MicronStart(s, start) == MicronStart(s, last)
    {
      if !IsMicronChar(s[start - 1]) { break; }
      start := start - 1;
    }
  }

  lemma RunStartIs(s: string, last: nat, start: nat)
    requires last < |s| && RunStart(s, last, start)
    ensures MicronStart(s, last) == start
  {
    var t := MicronStart(s, last);
    assert start <= t;
  }

  // ----------------------------------------------------------- material names

  predicate Upper(c: char) {
    'A' <= c <= 'Z'
  }

  /** A lower-case word without white space. */
  predicate PlainWord(w: string) {
    w != [] && forall i | 0 <= i < |w| :: !IsWhite(w[i]) && !Upper(w[i])
  }

  predicate PlainWords(ws: seq<string>) {
    forall i | 0 <= i < |ws| :: PlainWord(ws[i])
  }

  function Compact(value: string): string {
    Join(Words(Lower(Trim(value))), " ")
  }

  function NormalizeMaterialName(value: string): string {
    var compact := Compact(value);
    if Contains(compact, "metall") && Contains(compact, "bopp") then "oppm"
    else if compact == "bopp" then "opp"
    else if "bopp " <= compact then "opp" + compact[4..]
    else compact
  }

  /** Metallised "bopp" is "oppm" wherever the two words stand, "bopp" in front is "opp", and a name without
      "bopp" is only brought to small letters and single blanks. */
  lemma NamesRenamed(value: string)
    ensures var compact, name := Compact(value), NormalizeMaterialName(value);
            && (Contains(compact, "metall") && Contains(compact, "bopp") ==> name == "oppm")
            && (!Contains(compact, "metall") && compact == "bopp" ==> name == "opp")
            && (!Contains(compact, "metall") && "bopp " <= compact ==> name == "opp " + compact[5..])
            && (!Contains(compact, "bopp") ==> name == compact)
  {
    hide Compact;
    var compact := Compact(value);
    if "bopp" <= compact { HoldsFront(compact); }
    assert "bopp " <= compact ==> "bopp" <= compact && compact[4..] == " " + compact[5..];
  }

  lemma HoldsFront(s: string)
    requires "bopp" <= s
    ensures Contains(s, "bopp")
  {
    assert s == [] + "bopp" + s[4..];
    ContainsIntro(s, [], "bopp", s[4..]);
  }

  lemma {:induction false} WordsArePlain(s: string)
    requires forall i | 0 <= i < |s| :: !Upper(s[i])
    ensures PlainWords(Words(s))
    decreases |s|
  {
    var before := TrimStartCuts(s, IsWhite);
    var t := TrimStart(s, IsWhite);
    assert forall i | 0 <= i < |t| :: t[i] == s[|before| + i];
    if t != [] {
      var n := WordLength(t);
      WordsArePlain(t[n..]);
      var ws := Words(s);
      assert PlainWord(ws[0]);
      forall i | 0 <= i < |ws| ensures PlainWord(ws[i]) {
        if i > 0 { assert ws[i] == Words(t[n..])[i - 1]; }
      }
    }
  }

  lemma WordLengthIs(w: string, rest: string)
    requires PlainWord(w)
    requires rest == [] || IsWhite(rest[0])
    ensures WordLength(w + rest) == |w|
  {
    var s := w + rest;
    var n := WordLength(s);
    assert forall i | 0 <= i < |w| :: s[i] == w[i];
    assert n == |s| || !(n < |w|);
    assert |w| == |s| || s[|w|] == rest[0];
  }

  lemma FirstWordOf(w: string, rest: string)
    requires PlainWord(w) && (rest == [] || IsWhite(rest[0]))
    ensures Words(w + rest) == [w] + Words(rest)
  {
    var s := w + rest;
    assert s[0] == w[0];
    WordLengthIs(w, rest);
    assert s[..|w|] == w && s[|w|..] == rest;
  }

  lemma SkipBlank(tail: string)
    ensures Words(" " + tail) == Words(tail)
  {
    assert (" " + tail)[1..] == tail;
  }

  /** Joining plain words with single spaces and splitting again gives the words back. */
  lemma {:induction false} WordsOfJoin(ws: seq<string>)
    requires PlainWords(ws)
    ensures Words(Join(ws, " ")) == ws
  {
    if |ws| == 1 {
      FirstWordOf(ws[0], "");
      assert ws[0] + "" == ws[0];
    } else if ws != [] {
      var tail := Join(ws[1..], " ");
      WordsOfJoin(ws[1..]);
      SkipBlank(tail);
      FirstWordOf(ws[0], " " + tail);
      assert Join(ws, " ") == ws[0] + (" " + tail);
    }
  }

  lemma {:induction false} JoinIsTightAndLow(ws: seq<string>)
    requires PlainWords(ws)
    ensures Tight(Join(ws, " "))
    ensures forall i | 0 <= i < |Join(ws, " ")| :: !Upper(Join(ws, " ")[i])
  {
    if |ws| > 1 {
      JoinIsTightAndLow(ws[1..]);
      var tail := Join(ws[1..], " ");
      assert PlainWord(ws[1]);
      assert tail != [];
      var s := Join(ws, " ");
      assert s[0] == ws[0][0] && s[|s| - 1] == tail[|tail| - 1];
    }
  }

  lemma LowOfLow(s: string)
    requires forall i | 0 <= i < |s| :: !Upper(s[i])
    ensures Lower(s) == s
  {
  }

  lemma CompactOfJoin(ws: seq<string>)
    requires PlainWords(ws)
    ensures Compact(Join(ws, " ")) == Join(ws, " ")
  {
    JoinIsTightAndLow(ws);
    TrimOfTight(Join(ws, " "), IsWhite);
    LowOfLow(Join(ws, " "));
    WordsOfJoin(ws);
  }

  lemma CompactIsJoin(value: string) returns (ws: seq<string>)
    ensures PlainWords(ws) && Compact(value) == Join(ws, " ")
  {
    ws := Words(Lower(Trim(value)));
    WordsArePlain(Lower(Trim(value)));
  }

  /** A material name as the parser leaves it. */
  predicate NormalName(m: string) {
    NormalizeMaterialName(m) == m
  }

  lemma OneWord(w: string)
    requires PlainWord(w)
    ensures Compact(w) == w
  {
    CompactOfJoin([w]);
  }

  lemma SubstringOfTail(s: string, needle: string)
    requires s != [] && Contains(s[1..], needle)
    ensures Contains(s, needle)
  {
    var before, after := ContainsElim(s[1..], needle);
    ContainsIntro(s, [s[0]] + before, needle, after);
  }

  lemma ShortContains(s: string, needle: string)
    requires |s| <= |needle| && Contains(s, needle)
    ensures s == needle
  {
    var before, after := ContainsElim(s, needle);
    assert before == [] && after == [];
  }

  lemma FirstWordIs(ws: seq<string>)
    requires PlainWords(ws) && "bopp " <= Join(ws, " ")
    ensures |ws| > 1 && ws[0] == "bopp"
  {
    var s := Join(ws, " ");
    assert s[..5] == "bopp ";
    assert s[4] == ' ' && s[0] == 'b' && s[1] == 'o' && s[2] == 'p' && s[3] == 'p';
    assert ws != [];
    var w := ws[0];
    assert PlainWord(w);
    assert |ws| == 1 ==> w == s;
    assert forall i | 0 <= i < |w| :: s[i] == w[i] && !IsWhite(s[i]);
    assert |ws| > 1 && s[|w|] == ' ';
  }

  lemma ShortName(w: string)
    requires PlainWord(w) && |w| <= 4 && w != "bopp"
    ensures NormalName(w)
  {
    OneWord(w);
    if Contains(w, "bopp") { ShortContains(w, "bopp"); }
  }

  lemma RenamedWords(ws: seq<string>)
    requires PlainWords(ws) && "bopp " <= Join(ws, " ")
    ensures PlainWords(["opp"] + ws[1..]) && Join(["opp"] + ws[1..], " ") == Join(ws, " ")[1..]
  {
    FirstWordIs(ws);
    var vs := ["opp"] + ws[1..];
    assert vs[1..] == ws[1..];
    assert Join(ws, " ") == "bopp" + " " + Join(ws[1..], " ");
    assert PlainWord("opp");
    assert forall i | 0 < i < |vs| :: vs[i] == ws[i];
  }

  /** "bopp x" becomes "opp x", which stays. */
  lemma TailHolds(compact: string)
    requires compact != []
    ensures Contains(compact[1..], "metall") ==> Contains(compact, "metall")
    ensures Contains(compact[1..], "bopp") ==> Contains(compact, "bopp")
  {
    if Contains(compact[1..], "metall") { SubstringOfTail(compact, "metall"); }
    if Contains(compact[1..], "bopp") { SubstringOfTail(compact, "bopp"); }
  }

  lemma PlainlyNormal(name: string)
    requires Compact(name) == name && name != [] && name[0] == 'o'
    requires !(Contains(name, "metall") && Contains(name, "bopp"))
    ensures NormalName(name)
  {
  }

  lemma OppInFront(compact: string)
    requires "bopp " <= compact
    ensures "opp" + compact[4..] == compact[1..] && compact[1..] != [] && compact[1..][0] == 'o'
  {
    assert compact == "bopp " + compact[5..];
  }

  lemma RenamedIsNormal(ws: seq<string>)
    requires PlainWords(ws)
    requires var compact := Join(ws, " ");
             "bopp " <= compact && !(Contains(compact, "metall") && Contains(compact, "bopp"))
    ensures NormalName(Join(ws, " ")[1..])
    ensures "opp" + Join(ws, " ")[4..] == Join(ws, " ")[1..]
  {
    RenamedWords(ws);
    CompactOfJoin(["opp"] + ws[1..]);
    TailHolds(Join(ws, " "));
    OppInFront(Join(ws, " "));
    PlainlyNormal(Join(ws, " ")[1..]);
  }

  lemma ShortNames()
    ensures NormalName("oppm") && NormalName("opp")
  {
    ShortName("oppm");
    ShortName("opp");
  }

  /** Normalising twice changes nothing. */
  lemma NormalizeIdempotent(value: string)
    ensures NormalName(NormalizeMaterialName(value))
  {
    var ws := CompactIsJoin(value);
    ShortNames();
    if "bopp " <= Compact(value) {
      if !(Contains(Compact(value), "metall") && Contains(Compact(value), "bopp")) { RenamedIsNormal(ws); }
    } else {
      CompactOfJoin(ws);
    }
  }

  lemma NormalNameIsTight(m: string)
    requires NormalName(m)
    ensures Tight(m)
  {
    var ws := CompactIsJoin(m);
    JoinIsTightAndLow(ws);
    if "bopp " <= Compact(m) { assert Compact(m)[|Compact(m)| - 1] == m[|m| - 1]; }
  }

  // ------------------------------------------------------------------ parsing

  /** The material and micron texts of one layer, before the name is normalised. */
  function RawLayer(text: string): Option<Layer> {
    var value := Trim(text);
    var n := AfterLastDigit(value);
    if n == 0 then None
    else
      var start := MicronStart(value, n - 1);
      var material := Trim(value[..start]);
      var micron := FilterChars(value[start..], KeptInMicron);
      if material == [] || micron == [] then None else Some(Layer(material, micron))
  }

  function ParseMaterialLayer(text: string): Option<Layer> {
    match RawLayer(text)
    case None => None
    case Some(raw) => Some(Layer(NormalizeMaterialName(raw.material), raw.micron))
  }

  /** `filter_map(..).take(limit)`: the values that are there, at most `limit` of them. */
  function TakeSome<T>(options: seq<Option<T>>, limit: nat): seq<T> {
    if options == [] || limit == 0 then []
    else if options[0].None? then TakeSome(options[1..], limit)
    else [options[0].value] + TakeSome(options[1..], limit - 1)
  }

  function ParseEach(parts: seq<string>): seq<Option<Layer>> {
    seq(|parts|, i requires 0 <= i < |parts| => ParseMaterialLayer(parts[i]))
  }

  function ParseMaterialLayers(value: string): seq<Layer> {
    TakeSome(ParseEach(Split(value, '+')), 3)
  }

  // --------------------------------------------------------------- round trip

  function PrintLayer(layer: Layer): string {
    layer.material + " " + layer.micron
  }

  function PrintAll(layers: seq<Layer>): seq<string> {
    if layers == [] then [] else [PrintLayer(layers[0])] + PrintAll(layers[1..])
  }

  function PrintLayers(layers: seq<Layer>): string {
    Join(PrintAll(layers), " + ")
  }

  predicate MicronText(u: string) {
    (forall i | 0 <= i < |u| :: KeptInMicron(u[i])) && AfterLastDigit(u) > 0
  }

  /** A layer as the parser produces it: a normal name without '+', and a micron text of digits and
      slashes with at least one digit. */
  predicate Printable(layer: Layer) {
    layer.material != [] && NormalName(layer.material) && Free(layer.material, '+') && MicronText(layer.micron)
  }

  predicate AllPrintable(layers: seq<Layer>) {
    forall i | 0 <= i < |layers| :: Printable(layers[i])
  }

  lemma {:induction false} FilterKeepsAll(s: string, keep: char -> bool)
    requires forall i | 0 <= i < |s| :: keep(s[i])
    ensures FilterChars(s, keep) == s
  {
    if s != [] {
      assert s == [s[0]] + s[1..];
      FilterKeepsAll(s[1..], keep);
    }
  }

  lemma AfterLastDigitOfConcat(front: string, s: string)
    requires AfterLastDigit(s) > 0
    ensures AfterLastDigit(front + s) == |front| + AfterLastDigit(s)
  {
    var whole := front + s;
    var n, k := AfterLastDigit(whole), AfterLastDigit(s);
    assert whole[|front| + k - 1] == s[k - 1];
    assert forall i | |front| + k <= i < |whole| :: whole[i] == s[i - |front|];
    assert n == 0 || IsDigit(whole[n - 1]);
  }

  lemma TrimMaterial(m: string)
    requires Tight(m)
    ensures Trim(m + " ") == m
  {
    TrimIsMiddle([], m, " ", IsWhite);
    assert [] + m + " " == m + " ";
  }

  lemma StartOfMicron(front: string, u: string, value: string)
    requires MicronText(u) && value == front + u
    requires front != [] && !IsMicronChar(front[|front| - 1])
    ensures AfterLastDigit(value) > 0
    ensures MicronStart(value, AfterLastDigit(value) - 1) == |front|
  {
    AfterLastDigitOfConcat(front, u);
    var last := AfterLastDigit(value) - 1;
    forall i | |front| <= i < last ensures IsMicronChar(value[i]) {
      assert KeptInMicron(u[i - |front|]);
    }
    assert value[|front| - 1] == front[|front| - 1];
    RunStartIs(value, last, |front|);
  }

  lemma RawIs(text: string, value: string, start: nat, m: string, u: string)
    requires Trim(text) == value && AfterLastDigit(value) > 0
    requires MicronStart(value, AfterLastDigit(value) - 1) == start
    requires Trim(value[..start]) == m != [] && FilterChars(value[start..], KeptInMicron) == u != []
    ensures RawLayer(text) == Some(Layer(m, u))
  {
  }

  /** Reading one printed layer, with spaces around it: the scan stops at the micron's start. */
  lemma RawPrinted(m: string, u: string, before: string, after: string)
    requires m != [] && Tight(m) && MicronText(u)
    requires before in {"", " "} && after in {"", " "}
    ensures RawLayer(before + (m + " " + u) + after) == Some(Layer(m, u))
  {
    var front := m + " ";
    var value := front + u;
    assert Tight(value) by { assert value[0] == m[0] && value[|value| - 1] == u[|u| - 1]; }
    TrimIsMiddle(before, value, after, IsWhite);
    StartOfMicron(front, u, value);
    assert value[..|front|] == front && value[|front|..] == u;
    TrimMaterial(m);
    FilterKeepsAll(u, KeptInMicron);
    RawIs(before + value + after, value, |front|, m, u);
  }

  /** A run of digits, slashes, commas and points that ends in a digit is one micron text: commas and
      points are left out of it, so "12,5" is read as 125. */
  lemma MicronRun(m: string, run: string)
    requires m != [] && Tight(m) && run != [] && IsDigit(run[|run| - 1])
    requires forall i | 0 <= i < |run| :: '0' <= run[i] <= '9' || run[i] == '/' || run[i] == ',' || run[i] == '.'
    ensures RawLayer(m + " " + run).Some?
    ensures var raw := RawLayer(m + " " + run).value;
            && raw == Layer(m, FilterChars(run, KeptInMicron))
            && forall c :: c in raw.micron <==> c in run && c != ',' && c != '.'
  {
    hide AfterLastDigit, MicronStart, FilterChars, RawLayer, IsMicronChar, KeptInMicron;
    var front, u := m + " ", FilterChars(run, KeptInMicron);
    var value := front + run;
    RunChars(run);
    RunTight(m, run);
    TrimOfTight(value, IsWhite);
    RunBehind(front, run, value);
    assert value[..|front|] == front && value[|front|..] == run;
    TrimMaterial(m);
    RawIs(value, value, |front|, m, u);
  }

  lemma RunTight(m: string, run: string)
    requires m != [] && Tight(m) && run != [] && IsDigit(run[|run| - 1])
    ensures Tight(m + " " + run) && !IsMicronChar((m + " ")[|m|])
  {
    var value := m + " " + run;
    assert value[0] == m[0] && value[|value| - 1] == run[|run| - 1];
  }

  lemma RunChars(run: string)
    requires run != [] && IsDigit(run[|run| - 1])
    requires forall i | 0 <= i < |run| :: '0' <= run[i] <= '9' || run[i] == '/' || run[i] == ',' || run[i] == '.'
    ensures forall i | 0 <= i < |run| :: IsMicronChar(run[i])
    ensures FilterChars(run, KeptInMicron) != []
    ensures forall c :: c in FilterChars(run, KeptInMicron) <==> c in run && c != ',' && c != '.'
  {
    assert run[|run| - 1] in FilterChars(run, KeptInMicron);
    forall c | c in run ensures KeptInMicron(c) <==> c != ',' && c != '.' {
      var i :| 0 <= i < |run| && run[i] == c;
    }
  }

  lemma RunBehind(front: string, run: string, value: string)
    requires value == front + run && run != [] && IsDigit(run[|run| - 1])
    requires forall i | 0 <= i < |run| :: IsMicronChar(run[i])
    requires front != [] && !IsMicronChar(front[|front| - 1])
    ensures AfterLastDigit(value) > 0 && MicronStart(value, AfterLastDigit(value) - 1) == |front|
  {
    var last := |value| - 1;
    assert value[last] == run[|run| - 1] && AfterLastDigit(value) == |value|;
    forall i | |front| <= i < last ensures IsMicronChar(value[i]) { assert value[i] == run[i - |front|]; }
    RunStartIs(value, last, |front|);
  }

  lemma ParsePrintedLayer(layer: Layer, before: string, after: string)
    requires Printable(layer)
    requires before in {"", " "} && after in {"", " "}
    ensures ParseMaterialLayer(before + PrintLayer(layer) + after) == Some(layer)
  {
    NormalNameIsTight(layer.material);
    RawPrinted(layer.material, layer.micron, before, after);
  }

  /** The parts of a text joined by " + ", each with the spaces of its separators. */
  function PaddedParts(parts: seq<string>, lead: string): seq<string> {
    if parts == [] then []
    else [lead + parts[0] + (if |parts| == 1 then "" else " ")] + PaddedParts(parts[1..], " ")
  }

  lemma {:induction false} SplitJoined(parts: seq<string>, lead: string)
    requires parts != [] && AllFree(parts, '+') && Free(lead, '+')
    ensures Split(lead + Join(parts, " + "), '+') == PaddedParts(parts, lead)
  {
    assert Free(parts[0], '+');
    if |parts| == 1 {
      assert lead + parts[0] + "" == lead + parts[0];
      SplitFree(lead + parts[0], '+');
    } else {
      var rest := parts[1..];
      assert AllFree(rest, '+') by { assert forall i | 0 <= i < |rest| :: rest[i] == parts[i + 1]; }
      SplitJoined(rest, " ");
      var head := lead + parts[0] + " ";
      assert lead + Join(parts, " + ") == head + ['+'] + (" " + Join(rest, " + "));
      SplitCons(head, '+', " " + Join(rest, " + "));
    }
  }

  lemma {:induction false} PrintedFree(layers: seq<Layer>)
    requires AllPrintable(layers)
    ensures AllFree(PrintAll(layers), '+') && |PrintAll(layers)| == |layers|
  {
    if layers != [] {
      var layer := layers[0];
      assert Printable(layer);
      assert Free(PrintLayer(layer), '+');
      assert AllPrintable(layers[1..]);
      PrintedFree(layers[1..]);
    }
  }

  lemma {:induction false} TakeAll<T>(options: seq<Option<T>>, values: seq<T>, limit: nat)
    requires |options| == |values| <= limit
    requires forall i | 0 <= i < |options| :: options[i] == Some(values[i])
    ensures TakeSome(options, limit) == values
  {
    if options != [] {
      TakeAll(options[1..], values[1..], limit - 1);
    }
  }

  lemma {:induction false} PaddedAt(parts: seq<string>, lead: string, i: nat)
    requires i < |parts|
    ensures |PaddedParts(parts, lead)| == |parts|
    ensures PaddedParts(parts, lead)[i]
         == (if i == 0 then lead else " ") + parts[i] + (if i + 1 == |parts| then "" else " ")
  {
    if |parts| > 1 {
      PaddedAt(parts[1..], " ", if i == 0 then 0 else i - 1);
    }
  }

  lemma {:induction false} PrintAllAt(layers: seq<Layer>, i: nat)
    requires i < |layers|
    ensures |PrintAll(layers)| == |layers| && PrintAll(layers)[i] == PrintLayer(layers[i])
  {
    if |layers| > 1 { PrintAllAt(layers[1..], if i == 0 then 0 else i - 1); }
  }

  lemma ParsePadded(layers: seq<Layer>, i: nat)
    requires AllPrintable(layers) && i < |layers|
    ensures |PaddedParts(PrintAll(layers), "")| == |layers|
    ensures ParseMaterialLayer(PaddedParts(PrintAll(layers), "")[i]) == Some(layers[i])
  {
    PrintAllAt(layers, i);
    PaddedAt(PrintAll(layers), "", i);
    ParsePrintedLayer(layers[i], if i == 0 then "" else " ", if i + 1 == |layers| then "" else " ");
  }

  lemma ParseParts(layers: seq<Layer>, parts: seq<string>)
    requires |layers| <= 3 && AllPrintable(layers) && layers != []
    requires parts == PaddedParts(PrintAll(layers), "")
    ensures TakeSome(ParseEach(parts), 3) == layers
  {
    ParsePadded(layers, 0);
    forall i | 0 <= i < |layers| ensures ParseEach(parts)[i] == Some(layers[i]) { ParsePadded(layers, i); }
    TakeAll(ParseEach(parts), layers, 3);
  }

  /** Printing up to three layers and parsing the text gives the same layers. */
  lemma PrintThenParse(layers: seq<Layer>)
    requires |layers| <= 3 && AllPrintable(layers)
    ensures ParseMaterialLayers(PrintLayers(layers)) == layers
  {
    if layers == [] {
      assert Split("", '+') == [""];
      assert Trim("") == "";
    } else {
      PrintedFree(layers);
      SplitJoined(PrintAll(layers), "");
      assert "" + PrintLayers(layers) == PrintLayers(layers);
      ParseParts(layers, PaddedParts(PrintAll(layers), ""));
    }
  }

  // --------------------------------------------------------- stability on any text

  lemma TrimFree(text: string, c: char)
    requires Free(text, c)
    ensures Free(Trim(text), c)
  {
    var before, after := TrimCuts(text, IsWhite);
    assert forall d | d in Trim(text) :: d in text;
  }

  lemma SliceFree(s: string, n: nat, c: char)
    requires n <= |s| && Free(s, c)
    ensures Free(s[..n], c)
  {
  }

  lemma RawShape(text: string)
    requires RawLayer(text).Some? && Free(text, '+')
    ensures var raw := RawLayer(text).value;
            raw.material != [] && Tight(raw.material) && Free(raw.material, '+') && MicronText(raw.micron)
  {
    var value := Trim(text);
    TrimFree(text, '+');
    var last := AfterLastDigit(value) - 1;
    var start := MicronStart(value, last);
    SliceFree(value, start, '+');
    FrontShape(value[..start]);
    MicronShape(value[start..], last - start);
  }

  lemma FrontShape(front: string)
    requires Free(front, '+')
    ensures Tight(Trim(front)) && Free(Trim(front), '+')
  {
    var x, y := TrimCuts(front, IsWhite);
    assert forall c | c in Trim(front) :: c in front;
  }

  lemma MicronShape(s: string, last: nat)
    requires last < |s| && IsDigit(s[last])
    ensures MicronText(FilterChars(s, KeptInMicron))
  {
    var micron := FilterChars(s, KeptInMicron);
    assert s[last] in micron;
    HasDigit(micron, s[last]);
    forall i | 0 <= i < |micron| ensures KeptInMicron(micron[i]) { assert micron[i] in micron; }
  }

  lemma HasDigit(s: string, c: char)
    requires c in s && IsDigit(c)
    ensures AfterLastDigit(s) > 0
  {
  }

  lemma NameStaysFree(value: string)
    requires value != [] && Tight(value) && Free(value, '+')
    ensures NormalizeMaterialName(value) != [] && Free(NormalizeMaterialName(value), '+')
  {
    TrimOfTight(value, IsWhite);
    var low := Lower(value);
    forall i | 0 <= i < |low| ensures low[i] != '+' { assert value[i] in value; }
    assert !IsWhite(low[0]);
    WordsFree(low);
    JoinFree(Words(low));
    assert Words(low) != [] && Words(low)[0] != [];
    assert Compact(value) != [];
  }

  lemma {:induction false} WordsFree(s: string)
    requires Free(s, '+')
    ensures AllFree(Words(s), '+')
    ensures s != [] && !IsWhite(s[0]) ==> Words(s) != [] && Words(s)[0] != []
    decreases |s|
  {
    var before := TrimStartCuts(s, IsWhite);
    var t := TrimStart(s, IsWhite);
    assert forall c | c in t :: c in s;
    if t != [] {
      WordsFree(t[WordLength(t)..]);
    }
  }

  lemma {:induction false} JoinFree(ws: seq<string>)
    requires AllFree(ws, '+')
    ensures Free(Join(ws, " "), '+')
    ensures ws != [] && ws[0] != [] ==> Join(ws, " ") != []
  {
    if ws != [] {
      assert Free(ws[0], '+');
      assert AllFree(ws[1..], '+') by { assert forall i | 0 <= i < |ws[1..]| :: ws[1..][i] == ws[i + 1]; }
      JoinFree(ws[1..]);
    }
  }

  lemma ParsedIsPrintable(text: string)
    requires Free(text, '+') && ParseMaterialLayer(text).Some?
    ensures Printable(ParseMaterialLayer(text).value)
  {
    RawShape(text);
    var raw := RawLayer(text).value;
    NameStaysFree(raw.material);
    NormalizeIdempotent(raw.material);
  }

  lemma {:induction false} TakenAreThere<T>(options: seq<Option<T>>, limit: nat)
    ensures |TakeSome(options, limit)| <= limit
    ensures forall v | v in TakeSome(options, limit) :: Some(v) in options
  {
    if options != [] && limit > 0 {
      TakenAreThere(options[1..], limit);
      TakenAreThere(options[1..], limit - 1);
    }
  }

  lemma ParsedPrintable(text: string)
    ensures |ParseMaterialLayers(text)| <= 3 && AllPrintable(ParseMaterialLayers(text))
  {
    var parts := Split(text, '+');
    var layers := ParseMaterialLayers(text);
    TakenAreThere(ParseEach(parts), 3);
    forall k | 0 <= k < |layers| ensures Printable(layers[k]) {
      assert layers[k] in layers;
      var i :| 0 <= i < |parts| && ParseEach(parts)[i] == Some(layers[k]);
      assert Free(parts[i], '+');
      ParsedIsPrintable(parts[i]);
    }
  }

  /** On every text at all, what was parsed survives being printed and parsed again. */
  lemma ParsePrintParse(text: string)
    ensures ParseMaterialLayers(PrintLayers(ParseMaterialLayers(text))) == ParseMaterialLayers(text)
  {
    ParsedPrintable(text);
    PrintThenParse(ParseMaterialLayers(text));
  }

  // ------------------------------------------------- layers given by their display text

  /** `LayerInput::is_empty`. */
  predicate Blank(layer: Layer) {
    Trim(layer.material) == [] && Trim(layer.micron) == []
  }

  function LayerOr(layers: seq<Layer>, i: nat, other: Layer): Layer {
    if i < |layers| then layers[i] else other
  }

  /** `hydrate_layers_from_material_display`. */
  function Hydrate(request: Request, display: Option<string>): Request {
    var text := match display { case Some(t) => t case None => "" };
    if Trim(text) == [] || !Blank(request.first) || !Blank(request.second) || !Blank(request.third) then request
    else
      var layers := ParseMaterialLayers(text);
      request.(first := LayerOr(layers, 0, request.first),
               second := LayerOr(layers, 1, request.second),
               third := LayerOr(layers, 2, request.third))
  }

  /** The calculation of `calculate`, display text included. */
  function CalculateShown(request: Request, display: Option<string>): Result<seq<Calculation>> {
    Calculate(Hydrate(request, display))
  }

  lemma PrintableIsNotBlank(layer: Layer)
    requires Printable(layer)
    ensures !Blank(layer)
  {
    NormalNameIsTight(layer.material);
    TrimOfTight(layer.material, IsWhite);
  }

  /** A text that names layers fills them once: with them there it changes nothing more. */
  lemma HydrateTwice(request: Request, display: Option<string>, other: Option<string>)
    ensures Hydrate(Hydrate(request, display), display) == Hydrate(request, display)
    ensures Hydrate(request, display) != request ==>
              Hydrate(Hydrate(request, display), other) == Hydrate(request, display)
  {
    var text := match display { case Some(t) => t case None => "" };
    var layers := ParseMaterialLayers(text);
    ParsedPrintable(text);
    if layers != [] {
      PrintableIsNotBlank(layers[0]);
    } else {
      assert Hydrate(request, display) == request;
    }
  }

  /** Whether a request gives its layers or their display text is all one: up to three printable layers
      print to a text from which the same results are calculated, in an otherwise blank request. */
  lemma DisplayCalculates(request: Request, layers: seq<Layer>)
    requires Blank(request.first) && Blank(request.second) && Blank(request.third)
    requires |layers| <= 3 && AllPrintable(layers)
    ensures var named := request.(first := LayerOr(layers, 0, request.first),
                                  second := LayerOr(layers, 1, request.second),
                                  third := LayerOr(layers, 2, request.third));
            CalculateShown(request, Some(PrintLayers(layers))) == Calculate(named)
  {
    hide Calculate;
    PrintThenParse(layers);
    if layers != [] && Trim(PrintLayers(layers)) == [] {
      PrintedStarts(layers);
    }
  }

  lemma PrintedStarts(layers: seq<Layer>)
    requires layers != [] && Printable(layers[0])
    ensures Trim(PrintLayers(layers)) != []
  {
    var text, name := PrintLayers(layers), layers[0].material;
    NormalNameIsTight(name);
    JoinHead(PrintAll(layers), " + ");
    assert name[0] == text[0] && !IsWhite(text[0]);
    TrimKeepsFirst(text);
  }

  lemma JoinHead(parts: seq<string>, sep: string)
    requires parts != [] && parts[0] != []
    ensures Join(parts, sep) != [] && Join(parts, sep)[0] == parts[0][0]
  {
  }

  lemma TrimKeepsFirst(s: string)
    requires s != [] && !IsWhite(s[0])
    ensures Trim(s) != []
  {
    var before, after := TrimCuts(s, IsWhite);
    assert s[0] !in before + after;
  }

  /** Layers that are given, or no text at all, leave the request as it is. */
  lemma LayersGiven(request: Request, display: Option<string>)
    ensures || Trim(request.first.material) != "" || Trim(request.first.micron) != ""
            || Trim(request.second.material) != "" || Trim(request.second.micron) != ""
            || Trim(request.third.material) != "" || Trim(request.third.micron) != "" || display == None ==>
              CalculateShown(request, display) == Calculate(request)
  {
    hide Calculate;
    if display == None { TrimOfTight("", IsWhite); }
  }
}
