/** The rules of src/core/formula.rs in words of their own: which family a material belongs to, what its
    coefficient is, and how microns and combined layers are read. */
module FormulaRules {
  import opened Text
  import opened Decimals
  import opened Sequences
  import opened Interpolation
  import opened EditDistance
  import opened Formula

  // --------------------------------------------------------------------- families

  /** The word itself, or the word with one letter changed. */
  ghost predicate Nearly(n: string, word: string) {
    |n| == |word| && OneMismatchAtMost(n, word)
  }

  predicate NoMaterial(n: string) {
    n == "" || n == "-" || n == "--" || n == "yoq" || n == "yuq"
  }

  predicate Twisted(n: string) {
    Contains(n, "twis") || Contains(n, "tuisim")
  }

  ghost predicate PetOrOpp(n: string) {
    "pet" <= n || "mpet" <= n || Nearly(n, "pet") || "opp" <= n || "popp" <= n || n == "st01" || Nearly(n, "opp")
  }

  predicate ListedMcp(n: string) {
    n == "map" || n == "mcpp" || n == "msr" || n == "msp"
  }

  ghost predicate MatOrPf(n: string) {
    "mat" <= n || "pf" <= n || Nearly(n, "mat")
  }

  ghost predicate PeName(n: string) {
    "pe" <= n || Nearly(n, "pe")
  }

  ghost predicate CppOrMcp(n: string) {
    "cpp" <= n || "mcp" <= n || Nearly(n, "cpp") || Nearly(n, "mcp")
  }

  ghost predicate JemName(n: string) {
    "jem" <= n || Nearly(n, "jem")
  }

  lemma CloseIsNearly(n: string, word: string)
    requires AllAscii(n) && AllAscii(word)
    ensures Close(n, word) <==> Nearly(n, word)
  {
    CloseOnAscii(n, word);
  }

  lemma WordsAscii()
    ensures AllAscii("pet") && AllAscii("opp") && AllAscii("mat") && AllAscii("pe")
    ensures AllAscii("cpp") && AllAscii("mcp") && AllAscii("jem")
  {
  }

  /** Every word of two rules: the rule that stands first decides. */
  ghost predicate Rule(n: string, k: nat) {
    if k == 0 then NoMaterial(n)
    else if k == 1 then Twisted(n)
    else if k == 2 then PetOrOpp(n)
    else if k == 3 then ListedMcp(n)
    else if k == 4 then MatOrPf(n)
    else if k == 5 then PeName(n)
    else if k == 6 then CppOrMcp(n)
    else JemName(n)
  }

  /** The rule decides and none before it does. */
  ghost predicate Decides(n: string, k: nat) {
    Rule(n, k) && forall j: nat | j < k :: !Rule(n, j)
  }

  /** A material's family, from its letters, digits and dashes: the first of eight rules that speaks of
      them, and an error when none does. */
  lemma FamilyIs(material: string)
    ensures var n, r := Normalize(material), MaterialFamily(material);
            && (r == Ok(Empty) <==> Decides(n, 0)) && (r == Ok(Twist) <==> Decides(n, 1))
            && (r == Ok(First) <==> Decides(n, 2) || Decides(n, 4))
            && (r == Ok(McpCpp) <==> Decides(n, 3) || Decides(n, 6))
            && (r == Ok(Pe) <==> Decides(n, 5)) && (r == Ok(Jem) <==> Decides(n, 7))
            && (r == Err(UnknownMaterial(material)) <==> forall k: nat | k < 8 :: !Rule(n, k))
  {
    var n := Normalize(material);
    WordsAscii();
    CloseIsNearly(n, "pet");
    CloseIsNearly(n, "opp");
    CloseIsNearly(n, "mat");
    CloseIsNearly(n, "pe");
    CloseIsNearly(n, "cpp");
    CloseIsNearly(n, "mcp");
    CloseIsNearly(n, "jem");
    RulesAre(n);
    DecidedInOrder(n);
  }

  lemma RulesAre(n: string)
    ensures Rule(n, 0) == NoMaterial(n) && Rule(n, 1) == Twisted(n) && Rule(n, 2) == PetOrOpp(n)
    ensures Rule(n, 3) == ListedMcp(n) && Rule(n, 4) == MatOrPf(n) && Rule(n, 5) == PeName(n)
    ensures Rule(n, 6) == CppOrMcp(n) && Rule(n, 7) == JemName(n)
  {
  }

  lemma DecidedInOrder(n: string)
    ensures Decides(n, 0) <==> Rule(n, 0)
    ensures Decides(n, 1) <==> Rule(n, 1) && !Rule(n, 0)
    ensures Decides(n, 2) <==> Rule(n, 2) && !Rule(n, 0) && !Rule(n, 1)
    ensures Decides(n, 3) <==> Rule(n, 3) && !Rule(n, 0) && !Rule(n, 1) && !Rule(n, 2)
    ensures Decides(n, 4) <==> Rule(n, 4) && !Rule(n, 0) && !Rule(n, 1) && !Rule(n, 2) && !Rule(n, 3)
    ensures Decides(n, 5) <==> Rule(n, 5) && !Rule(n, 0) && !Rule(n, 1) && !Rule(n, 2) && !Rule(n, 3) && !Rule(n, 4)
    ensures Decides(n, 6) <==>
              Rule(n, 6) && !Rule(n, 0) && !Rule(n, 1) && !Rule(n, 2) && !Rule(n, 3) && !Rule(n, 4) && !Rule(n, 5)
    ensures Decides(n, 7) <==>
              && Rule(n, 7) && !Rule(n, 0) && !Rule(n, 1) && !Rule(n, 2) && !Rule(n, 3) && !Rule(n, 4) && !Rule(n, 5)
              && !Rule(n, 6)
    ensures (forall k: nat | k < 8 :: !Rule(n, k)) <==>
              && !Rule(n, 0) && !Rule(n, 1) && !Rule(n, 2) && !Rule(n, 3) && !Rule(n, 4) && !Rule(n, 5)
              && !Rule(n, 6) && !Rule(n, 7)
  {
  }

  // --------------------------------------------------------------- letters that count

  /** A character that `normalize` keeps as it is. */
  predicate Clean(c: char) {
    '0' <= c <= '9' || 'a' <= c <= 'z' || c == '-'
  }

  function Keeps(): char -> bool {
    (c: char) => IsAlnumAscii(c) || c == '-'
  }

  lemma FilterCons(x: char, rest: string, keep: char -> bool)
    ensures FilterChars([x] + rest, keep) == (if keep(x) then [x] else []) + FilterChars(rest, keep)
  {
    assert ([x] + rest)[1..] == rest;
  }

  lemma FilterBothStep(x: char, rest: string, b: string, keep: char -> bool)
    requires FilterChars(rest + b, keep) == FilterChars(rest, keep) + FilterChars(b, keep)
    ensures FilterChars([x] + (rest + b), keep) == FilterChars([x] + rest, keep) + FilterChars(b, keep)
  {
    FilterCons(x, rest + b, keep);
    FilterCons(x, rest, keep);
    Associate(if keep(x) then [x] else [], FilterChars(rest, keep), FilterChars(b, keep));
  }

  lemma {:induction false} FilterBoth(a: string, b: string, keep: char -> bool)
    ensures FilterChars(a + b, keep) == FilterChars(a, keep) + FilterChars(b, keep)
  {
    if a == [] {
      assert a + b == b;
    } else {
      var x, rest := a[0], a[1..];
      FilterBoth(rest, b, keep);
      FilterBothStep(x, rest, b, keep);
      HeadApart(a, b);
    }
  }

  lemma {:induction false} FilterClean(s: string, keep: char -> bool)
    requires forall c | c in s :: keep(c)
    ensures FilterChars(s, keep) == s
  {
    if s != [] {
      assert s[0] in s && s == [s[0]] + s[1..];
      FilterClean(s[1..], keep);
    }
  }

  lemma {:induction false} FilterDropsAll(s: string, keep: char -> bool)
    requires forall c | c in s :: !keep(c)
    ensures FilterChars(s, keep) == ""
  {
    if s != [] {
      assert s[0] in s;
      FilterDropsAll(s[1..], keep);
    }
  }

  lemma SameFilter(s: string)
    ensures FilterChars(s, Keeps()) == FilterChars(s, (c: char) => IsAlnumAscii(c) || c == '-')
  {
    FilterSame(s, Keeps(), (c: char) => IsAlnumAscii(c) || c == '-');
  }

  lemma {:induction false} FilterSame(s: string, p: char -> bool, q: char -> bool)
    requires forall c: char :: p(c) == q(c)
    ensures FilterChars(s, p) == FilterChars(s, q)
  {
    if s != [] { FilterSame(s[1..], p, q); }
  }

  lemma LowerBoth(a: string, b: string)
    ensures Lower(a + b) == Lower(a) + Lower(b)
  {
  }

  /** White space at the ends goes like any other character that is no letter, digit or dash. */
  lemma NormalizeFilters(value: string)
    ensures Normalize(value) == FilterChars(Lower(value), Keeps())
  {
    var before, after := TrimCuts(value, IsWhite);
    SameFilter(Lower(Trim(value)));
    assert value == before + (Trim(value) + after);
    LowerBoth(before, Trim(value) + after);
    LowerBoth(Trim(value), after);
    WhiteDropped(before);
    WhiteDropped(after);
    FilterBoth(Lower(before), Lower(Trim(value)) + Lower(after), Keeps());
    FilterBoth(Lower(Trim(value)), Lower(after), Keeps());
  }

  lemma WhiteDropped(s: string)
    requires forall c | c in s :: IsWhite(c)
    ensures FilterChars(Lower(s), Keeps()) == ""
  {
    forall c | c in Lower(s) ensures !Keeps()(c) {
      var i :| 0 <= i < |s| && Lower(s)[i] == c;
      assert s[i] in s;
    }
    FilterDropsAll(Lower(s), Keeps());
  }

  /** Clean text counts as it is. */
  lemma NormalizeKeeps(s: string)
    requires forall c | c in s :: Clean(c)
    ensures Normalize(s) == s
  {
    NormalizeFilters(s);
    assert Lower(s) == s by { forall i | 0 <= i < |s| ensures LowerChar(s[i]) == s[i] { assert s[i] in s; } }
    FilterClean(s, Keeps());
  }

  /** Any other character counts for nothing, wherever it stands, and so does the case of a letter. */
  lemma NormalizeDrops(before: string, c: char, after: string)
    ensures !Clean(LowerChar(c)) ==> Normalize(before + [c] + after) == Normalize(before + after)
    ensures Normalize(before + [c] + after) == Normalize(before + [LowerChar(c)] + after)
  {
    NormalizeOfThree(before, c, after);
    NormalizeOfThree(before, LowerChar(c), after);
    NormalizeOfTwo(before, after);
    KeptOnce(c);
    assert Normalize(before) + [] == Normalize(before);
  }

  lemma KeptOnce(c: char)
    ensures LowerChar(LowerChar(c)) == LowerChar(c)
  {
  }

  lemma NormalizeOfTwo(a: string, b: string)
    ensures Normalize(a + b) == Normalize(a) + Normalize(b)
  {
    NormalizeFilters(a);
    NormalizeFilters(b);
    NormalizeFilters(a + b);
    LowerBoth(a, b);
    FilterBoth(Lower(a), Lower(b), Keeps());
  }

  lemma NormalizeOne(c: char)
    ensures Normalize([c]) == if Clean(LowerChar(c)) then [LowerChar(c)] else []
  {
    NormalizeFilters([c]);
    assert Lower([c]) == [LowerChar(c)];
    FilterCons(LowerChar(c), [], Keeps());
    assert [LowerChar(c)] + [] == [LowerChar(c)];
  }

  lemma NormalizeOfThree(before: string, c: char, after: string)
    ensures Normalize(before + [c] + after)
         == Normalize(before) + (if Clean(LowerChar(c)) then [LowerChar(c)] else []) + Normalize(after)
  {
    NormalizeOfTwo(before + [c], after);
    NormalizeOfTwo(before, [c]);
    NormalizeOne(c);
  }

  // ------------------------------------------------------------------- coefficients

  lemma KnotOn(t: seq<Knot>, k: nat, micron: nat, value: real)
    requires |t| >= 2 && KnotsAscend(t) && k < |t| && t[k] == Knot(micron, value)
    ensures Curve(t, micron) == value
  {
    CurveThroughKnots(t, k);
  }

  lemma McpCppTable(t: seq<Knot>)
    requires t == MCP_CPP
    ensures |t| == 8 && KnotsAscend(t)
    ensures t[0] == Knot(20, 1.07) && t[1] == Knot(25, 1.3) && t[2] == Knot(30, 1.6) && t[3] == Knot(35, 2.0)
    ensures t[4] == Knot(40, 2.15) && t[5] == Knot(45, 2.7) && t[6] == Knot(50, 2.8) && t[7] == Knot(60, 3.2)
  {
    TablesAscend();
  }

  lemma EightKnots(t: seq<Knot>)
    requires |t| == 8 && KnotsAscend(t)
    ensures forall k | 0 <= k < 8 :: Curve(t, t[k].micron) == t[k].value
  {
    forall k | 0 <= k < 8 ensures Curve(t, t[k].micron) == t[k].value { CurveThroughKnots(t, k); }
  }

  /** The knots of each table are on its curve. */
  lemma McpCppKnots(t: seq<Knot>)
    requires t == MCP_CPP
    ensures KnotsAscend(t) && Curve(t, 20) == 1.07 && Curve(t, 25) == 1.3 && Curve(t, 30) == 1.6
    ensures Curve(t, 35) == 2.0 && Curve(t, 40) == 2.15 && Curve(t, 45) == 2.7
    ensures Curve(t, 50) == 2.8 && Curve(t, 60) == 3.2
  {
    McpCppTable(t);
    EightKnots(t);
  }

  lemma JemKnots(t: seq<Knot>)
    requires t == JEM
    ensures KnotsAscend(t) && Curve(t, 25) == 1.0 && Curve(t, 30) == 1.5
  {
    TablesAscend();
    KnotOn(t, 0, 25, 1.0);
    KnotOn(t, 1, 30, 1.5);
  }

  lemma PeTable(t: seq<Knot>)
    requires t == PE
    ensures |t| == 13 && KnotsAscend(t)
    ensures t[0] == Knot(30, 2.0) && t[1] == Knot(35, 2.3) && t[2] == Knot(40, 2.6) && t[3] == Knot(45, 3.0)
    ensures t[4] == Knot(50, 3.3) && t[5] == Knot(55, 3.6) && t[6] == Knot(60, 4.0) && t[7] == Knot(65, 4.3)
    ensures t[8] == Knot(70, 4.6) && t[9] == Knot(75, 5.0) && t[10] == Knot(80, 5.3) && t[11] == Knot(85, 5.6)
    ensures t[12] == Knot(90, 6.0)
  {
    TablesAscend();
  }

  lemma PeKnots(t: seq<Knot>)
    requires t == PE
    ensures KnotsAscend(t) && Curve(t, 30) == 2.0 && Curve(t, 35) == 2.3 && Curve(t, 40) == 2.6
    ensures Curve(t, 45) == 3.0 && Curve(t, 50) == 3.3 && Curve(t, 55) == 3.6 && Curve(t, 60) == 4.0
    ensures Curve(t, 65) == 4.3 && Curve(t, 70) == 4.6 && Curve(t, 75) == 5.0 && Curve(t, 80) == 5.3
    ensures Curve(t, 85) == 5.6 && Curve(t, 90) == 6.0
  {
    PeTable(t);
    PeLower(t);
    PeUpper(t);
  }

  lemma PeLower(t: seq<Knot>)
    requires |t| == 13 && KnotsAscend(t)
    requires t[0] == Knot(30, 2.0) && t[1] == Knot(35, 2.3) && t[2] == Knot(40, 2.6) && t[3] == Knot(45, 3.0)
    requires t[4] == Knot(50, 3.3) && t[5] == Knot(55, 3.6) && t[6] == Knot(60, 4.0)
    ensures Curve(t, 30) == 2.0 && Curve(t, 35) == 2.3 && Curve(t, 40) == 2.6
    ensures Curve(t, 45) == 3.0 && Curve(t, 50) == 3.3 && Curve(t, 55) == 3.6 && Curve(t, 60) == 4.0
  {
    KnotOn(t, 0, 30, 2.0);
    KnotOn(t, 1, 35, 2.3);
    KnotOn(t, 2, 40, 2.6);
    KnotOn(t, 3, 45, 3.0);
    KnotOn(t, 4, 50, 3.3);
    KnotOn(t, 5, 55, 3.6);
    KnotOn(t, 6, 60, 4.0);
  }

  lemma PeUpper(t: seq<Knot>)
    requires |t| == 13 && KnotsAscend(t)
    requires t[7] == Knot(65, 4.3) && t[8] == Knot(70, 4.6) && t[9] == Knot(75, 5.0) && t[10] == Knot(80, 5.3)
    requires t[11] == Knot(85, 5.6) && t[12] == Knot(90, 6.0)
    ensures Curve(t, 65) == 4.3 && Curve(t, 70) == 4.6 && Curve(t, 75) == 5.0 && Curve(t, 80) == 5.3
    ensures Curve(t, 85) == 5.6 && Curve(t, 90) == 6.0
  {
    KnotOn(t, 7, 65, 4.3);
    KnotOn(t, 8, 70, 4.6);
    KnotOn(t, 9, 75, 5.0);
    KnotOn(t, 10, 80, 5.3);
    KnotOn(t, 11, 85, 5.6);
    KnotOn(t, 12, 90, 6.0);
  }

  /** A film's coefficient: two when twisted, whatever its micron; one when thin, up to twenty, in the
      first layer or of the first family; else from the table of its family. */
  lemma CoefficientIs(material: string, micron: nat, isFirst: bool)
    ensures KnotsAscend(MCP_CPP) && KnotsAscend(JEM) && KnotsAscend(PE)
    ensures var family, r := MaterialFamily(material), CoefficientSingle(material, micron, isFirst);
            && (family.Err? ==> r == Err(family.error))
            && (family == Ok(Twist) ==> r == Ok(2.0))
            && (family == Ok(Empty) ==> r == Err(NoCoefficient(material, micron)))
            && (micron <= 20 && (family == Ok(First) || (isFirst && family in {Ok(McpCpp), Ok(Jem), Ok(Pe)})) ==>
                  r == Ok(1.0))
            && (family == Ok(First) && micron > 20 ==> r == Ok(Curve(MCP_CPP, micron)))
            && (micron > 20 || !isFirst ==>
                  && (family == Ok(McpCpp) ==> r == Ok(Curve(MCP_CPP, micron)))
                  && (family == Ok(Jem) ==> r == Ok(Curve(JEM, micron)))
                  && (family == Ok(Pe) ==> r == Ok(Curve(PE, micron))))
  {
    TablesAscend();
  }

  // --------------------------------------------------------------- parts and microns

  lemma TrimAllCons(x: string, rest: seq<string>)
    ensures TrimAll([x] + rest) == (if Trim(x) == [] then [] else [Trim(x)]) + TrimAll(rest)
  {
    assert ([x] + rest)[1..] == rest;
  }

  lemma TrimAllBothStep(x: string, rest: seq<string>, b: seq<string>)
    requires TrimAll(rest + b) == TrimAll(rest) + TrimAll(b)
    ensures TrimAll([x] + (rest + b)) == TrimAll([x] + rest) + TrimAll(b)
  {
    TrimAllCons(x, rest + b);
    TrimAllCons(x, rest);
    Associate(if Trim(x) == [] then [] else [Trim(x)], TrimAll(rest), TrimAll(b));
  }

  lemma {:induction false} TrimAllBoth(a: seq<string>, b: seq<string>)
    ensures TrimAll(a + b) == TrimAll(a) + TrimAll(b)
  {
    if a == [] {
      assert a + b == b;
    } else {
      var x, rest := a[0], a[1..];
      TrimAllBoth(rest, b);
      TrimAllBothStep(x, rest, b);
      HeadApart(a, b);
    }
  }

  /** A slash sets parts apart, and a part between slashes counts trimmed, unless it is blank. */
  lemma PartsOfBoth(a: string, b: string)
    ensures SplitParts(a + "/" + b) == SplitParts(a) + SplitParts(b)
    ensures Free(a, '/') ==> SplitParts(a) == if Trim(a) == "" then [] else [Trim(a)]
  {
    SplitBoth(a, '/', b);
    TrimAllBoth(Split(a, '/'), Split(b, '/'));
    if Free(a, '/') {
      SplitFree(a, '/');
      assert [a][1..] == [];
    }
  }

  /** A number as it is printed, with a plus sign or without, is read back when it fits 32 bits, and only
      then. */
  lemma PrintedNumberReads(n: nat)
    ensures ParseU32(NatText(n)) == if n <= 4294967295 then Some(n) else None
    ensures ParseU32("+" + NatText(n)) == if n <= 4294967295 then Some(n) else None
  {
    assert NatText(n)[0] in NatText(n);
    assert ("+" + NatText(n))[1..] == NatText(n);
  }

  function MicronList(ms: seq<nat>): string {
    if ms == [] then "" else if |ms| == 1 then NatText(ms[0]) else NatText(ms[0]) + "/" + MicronList(ms[1..])
  }

  predicate AllFit(ms: seq<nat>) {
    forall i | 0 <= i < |ms| :: ms[i] <= 4294967295
  }

  lemma DigitsTight(n: nat)
    ensures Trim(NatText(n)) == NatText(n) && Free(NatText(n), '/') && NatText(n) != "" && NatText(n)[0] != '-'
  {
    var s := NatText(n);
    assert s[0] in s && s[|s| - 1] in s;
    TrimOfTight(s, IsWhite);
  }

  lemma ParseCons(part: string, n: nat, parts: seq<string>, ms: seq<nat>, whole: string)
    requires ParseU32(Trim(part)) == Some(n) && ParseAll(parts, whole) == Ok(ms)
    ensures ParseAll([part] + parts, whole) == Ok([n] + ms)
  {
    assert ([part] + parts)[1..] == parts;
  }

  lemma {:induction false} ListReads(ms: seq<nat>, whole: string)
    requires ms != [] && AllFit(ms)
    ensures ParseAll(Split(MicronList(ms), '/'), whole) == Ok(ms)
  {
    DigitsTight(ms[0]);
    PrintedNumberReads(ms[0]);
    var head := NatText(ms[0]);
    assert ms == [ms[0]] + ms[1..];
    if |ms| == 1 {
      SplitFree(head, '/');
      ParseCons(head, ms[0], [], [], whole);
      assert [head] + [] == [head];
    } else {
      ListReads(ms[1..], whole);
      SplitCons(head, '/', MicronList(ms[1..]));
      ParseCons(head, ms[0], Split(MicronList(ms[1..]), '/'), ms[1..], whole);
    }
  }

  lemma {:induction false} ListEnds(ms: seq<nat>)
    requires ms != []
    ensures MicronList(ms) != [] && Tight(MicronList(ms)) && MicronList(ms)[0] != '-'
  {
    var s := NatText(ms[0]);
    DigitsTight(ms[0]);
    assert s[0] in s && s[|s| - 1] in s;
    if |ms| > 1 { ListEnds(ms[1..]); }
  }

  /** A list of microns is read number by number, and the largest stands for it. */
  lemma MicronsRead(ms: seq<nat>)
    requires ms != [] && AllFit(ms)
    ensures ParseMicronParts(MicronList(ms)) == Ok(ms)
    ensures var r := ParseMicron(MicronList(ms));
            r.Ok? && r.value in ms && forall m | m in ms :: m <= r.value
  {
    ListEnds(ms);
    TrimOfTight(MicronList(ms), IsWhite);
    assert "--"[0] == '-';
    ListReads(ms, MicronList(ms));
  }

  /** Two layers behind the first count as one whose materials and microns are those of both. */
  lemma MergedLayers(second: Layer, third: Layer)
    requires !IsEmptyMaterial(second.material) && !IsEmptyMaterial(third.material) && Trim(third.micron) != ""
    ensures MergeLayers(second, third).Ok?
    ensures var other := MergeLayers(second, third).value;
            && SplitParts(other.material) == SplitParts(second.material) + SplitParts(third.material)
            && Split(other.micron, '/') == Split(second.micron, '/') + Split(third.micron, '/')
  {
    PartsOfBoth(second.material, third.material);
    SplitBoth(second.micron, '/', third.micron);
  }

  /** Two coefficients together; the first error of the two. */
  function Plus(x: Result<real>, y: Result<real>): Result<real> {
    if x.Err? then x else if y.Err? then y else Ok(x.value + y.value)
  }

  lemma SumCons(single: (string, nat) -> Result<real>, m: string, micron: nat, ms: seq<string>, microns: seq<nat>)
    requires |ms| == |microns|
    ensures SumBy(single, [m] + ms, [micron] + microns) == Plus(single(m, micron), SumBy(single, ms, microns))
  {
    assert ([m] + ms)[1..] == ms && ([micron] + microns)[1..] == microns;
  }

  lemma {:induction false} SumsAdd(single: (string, nat) -> Result<real>, a: seq<string>, am: seq<nat>, b: seq<string>,
                                   bm: seq<nat>)
    requires |a| == |am| && |b| == |bm|
    ensures SumBy(single, a + b, am + bm) == Plus(SumBy(single, a, am), SumBy(single, b, bm))
  {
    if a == [] {
      assert a + b == b && am + bm == bm;
    } else {
      SumsAdd(single, a[1..], am[1..], b, bm);
      SumCons(single, a[0], am[0], a[1..] + b, am[1..] + bm);
      assert a + b == [a[0]] + (a[1..] + b) && am + bm == [am[0]] + (am[1..] + bm);
    }
  }

  /** The coefficients of films on top of each other add up; of two errors the first stands. */
  lemma CoefficientsAdd(a: seq<string>, am: seq<nat>, b: seq<string>, bm: seq<nat>, isFirst: bool)
    requires |a| == |am| && |b| == |bm|
    ensures SumCoefficients(a + b, am + bm, isFirst)
         == Plus(SumCoefficients(a, am, isFirst), SumCoefficients(b, bm, isFirst))
  {
    SumsAdd(Single(isFirst), a, am, b, bm);
  }

  lemma OneOfAll(single: (string, nat) -> Result<real>, material: string, micron: nat)
    ensures SumBy(single, [material], [micron]) == single(material, micron)
  {
    SumCons(single, material, micron, [], []);
    assert [material] + [] == [material] && [micron] + [] == [micron];
  }

  lemma OneCoefficient(material: string, micron: nat, isFirst: bool)
    ensures SumCoefficients([material], [micron], isFirst) == CoefficientSingle(material, micron, isFirst)
  {
    OneOfAll(Single(isFirst), material, micron);
  }

  // ----------------------------------------------------------------------- alternatives

  lemma OccursInFront(s: string, from: nat, sep: string, i: nat)
    requires from <= |s| && sep != [] && OccursAt(s[..from], sep, i)
    ensures i < from && OccursAt(s, sep, i)
  {
    assert s[..from][i..i + |sep|] == s[i..i + |sep|];
  }

  lemma NoneInFront(s: string, from: nat, sep: string)
    requires from <= |s| && sep != [] && forall i: nat | i < from :: !OccursAt(s, sep, i)
    ensures !Contains(s[..from], sep)
  {
    forall i: nat ensures OccursAt(s[..from], sep, i) ==> i < from && OccursAt(s, sep, i) {
      if OccursAt(s[..from], sep, i) { OccursInFront(s, from, sep, i); }
    }
  }

  /** Cutting at a word: the pieces joined by it are the text, and none of them holds it any more. */
  lemma {:induction false} SplitOnBack(s: string, sep: string, from: nat)
    requires sep != [] && from <= |s| && forall i: nat | i < from :: !OccursAt(s, sep, i)
    ensures SplitOn(s, sep, from) != [] && Join(SplitOn(s, sep, from), sep) == s
    ensures forall p | p in SplitOn(s, sep, from) :: !Contains(p, sep)
    decreases |s|, |s| - from
  {
    if from + |sep| > |s| {
      assert SplitOn(s, sep, from) == [s];
    } else if OccursAt(s, sep, from) {
      var rest := s[from + |sep|..];
      assert forall i: nat | i < 0 :: !OccursAt(rest, sep, i);
      SplitOnBack(rest, sep, 0);
      NoneInFront(s, from, sep);
      JoinCons(s[..from], SplitOn(rest, sep, 0), sep);
      assert s == s[..from] + sep + rest;
    } else {
      SplitOnBack(s, sep, from + 1);
    }
  }

  /** Slashes stand between alternatives when there are two parts or more, and not a micron for each. */
  predicate Slashed(piece: string, micron: string) {
    var parts, microns := SplitParts(piece), ParseMicronParts(micron);
    |parts| >= 2 && !(microns.Ok? && |microns.value| == |parts|)
  }

  predicate Named(piece: string, micron: string, a: string) {
    if Slashed(piece, micron) then a in SplitParts(piece) else a == piece
  }

  lemma SlashIs(piece: string, micron: string, a: string)
    ensures a in SlashAlternatives(piece, micron) <==> Named(piece, micron, a)
    ensures SlashAlternatives(piece, micron) != []
  {
    hide SplitParts, ParseMicronParts;
  }

  lemma {:induction false} FlatIs(pieces: seq<string>, micron: string, a: string)
    ensures a in FlatSlash(pieces, micron) <==> exists p | p in pieces :: Named(p, micron, a)
    ensures FlatSlash(pieces, micron) == [] <==> pieces == []
  {
    hide SlashAlternatives, Named;
    if pieces != [] {
      FlatIs(pieces[1..], micron, a);
      SlashIs(pieces[0], micron, a);
      assert forall p :: p in pieces <==> p == pieces[0] || p in pieces[1..];
    }
  }

  lemma {:induction false} TrimAllIs(parts: seq<string>, p: string)
    ensures p in TrimAll(parts) <==> p != "" && exists q | q in parts :: Trim(q) == p
  {
    hide Trim;
    if parts != [] {
      TrimAllIs(parts[1..], p);
      assert forall q :: q in parts <==> q == parts[0] || q in parts[1..];
    }
  }

  /** The alternatives of a layer, from its text cut at every "yoki": of each piece that is not blank its
      slashed parts, or the piece; and the text as it stands when there is no such piece. */
  lemma AlternativesAre(layer: Layer, a: string)
    ensures var pieces := SplitOn(layer.material, "yoki", 0);
            && Join(pieces, "yoki") == layer.material && (forall p | p in pieces :: !Contains(p, "yoki"))
            && (a in Alternatives(layer)
                <==> if forall p | p in pieces :: Trim(p) == "" then a == layer.material
                     else exists p | p in pieces :: Trim(p) != "" && Named(Trim(p), layer.micron, a))
  {
    SplitOnBack(layer.material, "yoki", 0);
    var pieces := SplitOn(layer.material, "yoki", 0);
    FlatIs(TrimAll(pieces), layer.micron, a);
    forall p ensures p in TrimAll(pieces) <==> p != "" && exists q | q in pieces :: Trim(q) == p {
      TrimAllIs(pieces, p);
    }
    TrimmedPieces(pieces, layer.micron, a);
  }

  lemma TrimmedPieces(pieces: seq<string>, micron: string, a: string)
    requires forall p :: p in TrimAll(pieces) <==> p != "" && exists q | q in pieces :: Trim(q) == p
    ensures TrimAll(pieces) == [] <==> forall p | p in pieces :: Trim(p) == ""
    ensures (exists p | p in TrimAll(pieces) :: Named(p, micron, a))
       <==> exists p | p in pieces :: Trim(p) != "" && Named(Trim(p), micron, a)
  {
    hide *;
    if TrimAll(pieces) != [] {
      assert TrimAll(pieces)[0] in TrimAll(pieces);
    }
    forall q | q in pieces && Trim(q) != "" ensures Trim(q) in TrimAll(pieces) {}
  }

  // -------------------------------------------------------------------- which layers count

  /** What a layer adds: nothing without a material, else its films at its own microns. */
  predicate Adds(material: string, micron: string, isFirst: bool, c: real) {
    if IsEmptyMaterial(material) then c == 0.0
    else ParseMicron(micron).Ok? && CoefficientCell(material, micron, ParseMicron(micron).value, isFirst) == Ok(c)
  }

  lemma PairAdds(first: Layer, other: Layer)
    ensures var r := CoefficientPair(first, other);
            r.Ok? ==>
              && Adds(first.material, first.micron, true, r.value.0)
              && Adds(other.material, other.micron, false, r.value.1)
              && r.value.0 + r.value.1 > 0.0
  {
    hide CoefficientCell, ParseMicron, IsEmptyMaterial;
  }

  /** The first layer counts by itself; behind it the one that names a material, or both as one. A second
      layer without a micron is taken to say "--", which is none. */
  lemma LayersCount(first: Layer, second: Layer, third: Layer)
    ensures var r := LayerCoefficients(first, second, third);
            var m2 := if Trim(second.micron) == "" then "--" else second.micron;
            var two, three := !IsEmptyMaterial(second.material), !IsEmptyMaterial(third.material);
            && (Trim(first.material) == "" ==> r == Err(NotFilled("1-qavat")))
            && (Trim(first.material) != "" && Trim(first.micron) == "" ==> r == Err(NotFilled("1-mikron")))
            && (Trim(first.material) != "" && Trim(first.micron) != "" && two && three && Trim(third.micron) == "" ==>
                  r == Err(ThirdMicronMissing))
            && (r.Ok? ==>
                  && Adds(Trim(first.material), Trim(first.micron), true, r.value.0)
                  && (two && !three ==> Adds(second.material, m2, false, r.value.1))
                  && (!two && three ==> Adds(third.material, third.micron, false, r.value.1))
                  && (two && three ==>
                        Adds(second.material + "/" + third.material, m2 + "/" + third.micron, false, r.value.1))
                  && (!two && !three ==> r.value.1 == 0.0)
                  && r.value.0 + r.value.1 > 0.0)
  {
    hide CoefficientPair, IsEmptyMaterial, Trim, Adds;
    var named := if Trim(second.micron) == "" then second.(micron := "--") else second;
    if MergeLayers(named, third).Ok? {
      PairAdds(Layer(Trim(first.material), Trim(first.micron)), MergeLayers(named, third).value);
    }
    NothingAdds();
  }

  lemma NothingAdds()
    ensures forall c, micron, isFirst :: Adds("--", micron, isFirst, c) <==> c == 0.0
  {
    NormalizeKeeps("--");
  }

  /** A second layer that names a material and no micron is refused in these words. */
  lemma SecondMicronMissing(first: Layer, second: Layer, third: Layer)
    requires Trim(first.material) != "" && Trim(first.micron) != ""
    requires !IsEmptyMaterial(second.material) && Trim(second.micron) == "" && IsEmptyMaterial(third.material)
    requires IsEmptyMaterial(Trim(first.material)) || ParseMicron(Trim(first.micron)).Ok?
    ensures LayerCoefficients(first, second, third) == Err(BadMicron("--"))
  {
    hide CoefficientCell, IsEmptyMaterial;
    TrimOfTight("--", IsWhite);
  }

  // --------------------------------------------------------------------- rubber size

  /** The rubber is a whole number of fifties, from 50 to 1300, and the smallest one of those that is not
      narrower than the film. */
  lemma RubberSizeIs(widthMm: real)
    ensures var size := RubberSize(widthMm);
            && size % 50 == 0 && 50 <= size <= 1300
            && (widthMm <= 1300.0 ==> widthMm <= size as real)
            && (forall k: nat | 1 <= k && widthMm <= (50 * k) as real :: size <= 50 * k)
  {
    var steps := Ceil(widthMm / 50.0);
    forall k: nat | 1 <= k && widthMm <= (50 * k) as real ensures RubberSize(widthMm) <= 50 * k {
      assert widthMm / 50.0 <= k as real;
    }
  }
}
