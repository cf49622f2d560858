/** The orders of src/core/formula_tests.rs, worked out step by step: what the rules of the formula come to
    on them. */
module KnownOrders {
  import opened Text
  import opened Decimals
  import opened Sequences
  import opened Interpolation
  import opened EditDistance
  import opened Formula
  import opened FormulaRules
  import M = MaterialLayers

  // --------------------------------------------------------------------- families

  lemma TooShort(hay: string, needle: string)
    requires |hay| < |needle|
    ensures !Contains(hay, needle)
  {
  }

  lemma SameLengthOnly(hay: string, needle: string)
    requires |hay| == |needle| && hay != needle
    ensures !Contains(hay, needle)
  {
    forall i: nat | i <= |hay| ensures !OccursAt(hay, needle, i) {
      if i == 0 { assert hay[0..|needle|] == hay; }
    }
  }

  lemma Unlike(n: string, word: string, i: nat, j: nat)
    requires |n| == |word| && i < j < |n| && n[i] != word[i] && n[j] != word[j]
    ensures !Nearly(n, word)
  {
  }

  /** Nothing twisted about a short name. */
  lemma NotTwisted(n: string)
    requires |n| <= 4 && n != "twis"
    ensures !Twisted(n)
  {
    if |n| == 4 { SameLengthOnly(n, "twis"); } else { TooShort(n, "twis"); }
    TooShort(n, "tuisim");
  }

  /** The family of the first rule that holds, with the rules before it ruled out. */
  lemma ThirdRule(material: string, n: string)
    requires Normalize(material) == n && !NoMaterial(n) && !Twisted(n) && PetOrOpp(n)
    ensures MaterialFamily(material) == Ok(First)
  {
    RulesAre(n);
    DecidedInOrder(n);
    FamilyIs(material);
  }

  lemma SixthRule(material: string, n: string)
    requires Normalize(material) == n && !NoMaterial(n) && !Twisted(n) && !PetOrOpp(n) && !ListedMcp(n) && !MatOrPf(n)
    requires PeName(n)
    ensures MaterialFamily(material) == Ok(Pe)
  {
    RulesAre(n);
    DecidedInOrder(n);
    FamilyIs(material);
  }

  lemma SeventhRule(material: string, n: string)
    requires Normalize(material) == n && !NoMaterial(n) && !Twisted(n) && !PetOrOpp(n) && !ListedMcp(n) && !MatOrPf(n)
    requires !PeName(n) && CppOrMcp(n)
    ensures MaterialFamily(material) == Ok(McpCpp)
  {
    RulesAre(n);
    DecidedInOrder(n);
    FamilyIs(material);
  }

  lemma FamilyOfPet()
    ensures Normalize("pet") == "pet" && MaterialFamily("pet") == Ok(First)
  {
    NormalizeKeeps("pet");
    NotTwisted("pet");
    ThirdRule("pet", "pet");
  }

  lemma FamilyOfOppm()
    ensures Normalize("oppm") == "oppm" && MaterialFamily("oppm") == Ok(First)
  {
    NormalizeKeeps("oppm");
    NotTwisted("oppm");
    ThirdRule("oppm", "oppm");
  }

  /** Four letters that begin with "pe" and with no other rule's word. */
  lemma FamilyOfPe(material: string, n: string)
    requires Normalize(material) == n && |n| == 4 && n[0] == 'p' && n[1] == 'e' && n[2] != 't'
    ensures MaterialFamily(material) == Ok(Pe)
  {
    assert n != "st01" && n != "mcpp" && n != "twis";
    NotTwisted(n);
    PeLetters(n);
    SixthRule(material, n);
  }

  lemma PeLetters(n: string)
    requires |n| == 4 && n[0] == 'p' && n[1] == 'e' && n[2] != 't'
    ensures !NoMaterial(n) && !PetOrOpp(n) && !ListedMcp(n) && !MatOrPf(n) && PeName(n)
  {
    assert "pe" <= n;
  }

  lemma CleanNames()
    ensures !Clean(LowerChar(' ')) && (forall c | c in "peoq" :: Clean(c)) && (forall c | c in "pepr" :: Clean(c))
  {
  }

  lemma PeOqName()
    ensures Normalize("pe oq") == "peoq"
  {
    hide *;
    NormalizeDrops("pe", ' ', "oq");
    CleanNames();
    assert "pe" + [' '] + "oq" == "pe oq" && "pe" + "oq" == "peoq";
    NormalizeKeeps("peoq");
  }

  lemma PeOqIs()
    ensures MaterialFamily("pe oq") == Ok(Pe)
  {
    PeOqName();
    FamilyOfPe("pe oq", "peoq");
  }

  lemma PePrName()
    ensures Normalize("pe pr") == "pepr"
  {
    hide *;
    NormalizeDrops("pe", ' ', "pr");
    CleanNames();
    assert "pe" + [' '] + "pr" == "pe pr" && "pe" + "pr" == "pepr";
    NormalizeKeeps("pepr");
  }

  lemma PePrIs()
    ensures MaterialFamily("pe pr") == Ok(Pe)
  {
    PePrName();
    FamilyOfPe("pe pr", "pepr");
  }

  lemma McpLetters(n: string)
    requires |n| == 3 && n[0] == 'm' && n[1] == 'c' && n[2] == 'p'
    ensures !NoMaterial(n) && !PetOrOpp(n) && !ListedMcp(n) && !MatOrPf(n) && !PeName(n) && CppOrMcp(n)
  {
    Unlike(n, "pet", 0, 1);
    Unlike(n, "opp", 0, 1);
    Unlike(n, "mat", 1, 2);
    assert "mcp" <= n;
  }

  lemma FamilyOfMcp()
    ensures Normalize("mcp") == "mcp" && MaterialFamily("mcp") == Ok(McpCpp)
  {
    NormalizeKeeps("mcp");
    NotTwisted("mcp");
    McpLetters("mcp");
    SeventhRule("mcp", "mcp");
  }

  // ----------------------------------------------------------------------- layers

  lemma TwoDigits(n: nat, s: string)
    requires 10 <= n < 100 && s == [DigitChar(n / 10), DigitChar(n % 10)]
    ensures NatText(n) == s
  {
    assert NatText(n / 10) == [DigitChar(n / 10)];
  }

  /** A micron of two digits. */
  lemma MicronIs(n: nat, s: string)
    requires 10 <= n < 100 && s == [DigitChar(n / 10), DigitChar(n % 10)]
    ensures ParseMicronParts(s) == Ok([n]) && ParseMicron(s) == Ok(n) && Trim(s) == s
  {
    TwoDigits(n, s);
    MicronsRead([n]);
    assert MicronList([n]) == s;
    DigitsTight(n);
  }

  lemma OnePart(material: string)
    requires Free(material, '/') && Tight(material) && material != ""
    ensures SplitParts(material) == [material]
  {
    PartsOfBoth(material, "");
    TrimOfTight(material, IsWhite);
  }

  lemma HasMaterial(material: string, n: string, i: nat)
    requires Normalize(material) == n && i < |n| && n[i] != '-' && n != "yoq" && n != "yuq"
    ensures !IsEmptyMaterial(material)
  {
    assert n[i] in n;
  }

  lemma BlankMaterial()
    ensures IsEmptyMaterial("")
  {
    NormalizeKeeps("");
  }

  /** A layer of one film and one micron has the film's coefficient. */
  lemma CellIs(layer: Layer, n: nat, isFirst: bool, c: real)
    requires 10 <= n < 100 && layer.micron == [DigitChar(n / 10), DigitChar(n % 10)]
    requires Free(layer.material, '/') && Tight(layer.material) && !IsEmptyMaterial(layer.material)
    requires layer.material != "" && CoefficientSingle(layer.material, n, isFirst) == Ok(c)
    ensures MicronOrZero(layer) == Ok(n) && CellOrZero(layer, n, isFirst) == Ok(c)
  {
    MicronIs(n, layer.micron);
    OnePart(layer.material);
  }

  lemma PairIs(first: Layer, other: Layer, n: nat, m: nat, a: real, b: real)
    requires MicronOrZero(first) == Ok(n) && CellOrZero(first, n, true) == Ok(a)
    requires MicronOrZero(other) == Ok(m) && CellOrZero(other, m, false) == Ok(b) && a + b > 0.0
    ensures CoefficientPair(first, other) == Ok((a, b))
  {
  }

  /** Two layers and no third one. */
  lemma TwoLayers(first: Layer, second: Layer, pair: (real, real))
    requires Tight(first.material) && first.material != "" && Tight(first.micron) && first.micron != ""
    requires !IsEmptyMaterial(second.material) && Trim(second.micron) != ""
    requires CoefficientPair(first, second) == Ok(pair)
    ensures LayerCoefficients(first, second, Layer("", "")) == Ok(pair)
  {
    TrimOfTight(first.material, IsWhite);
    TrimOfTight(first.micron, IsWhite);
    BlankMaterial();
  }

  lemma FilmCell(layer: Layer, n: string, micron: nat, isFirst: bool, c: real)
    requires Normalize(layer.material) == n && n != "" && n[0] != '-' && n != "yoq" && n != "yuq"
    requires Free(layer.material, '/') && Tight(layer.material) && layer.material != ""
    requires 10 <= micron < 100 && layer.micron == [DigitChar(micron / 10), DigitChar(micron % 10)]
    requires CoefficientSingle(layer.material, micron, isFirst) == Ok(c)
    ensures !IsEmptyMaterial(layer.material) && Trim(layer.micron) == layer.micron
    ensures MicronOrZero(layer) == Ok(micron) && CellOrZero(layer, micron, isFirst) == Ok(c)
  {
    HasMaterial(layer.material, n, 0);
    MicronIs(micron, layer.micron);
    CellIs(layer, micron, isFirst, c);
  }

  lemma PetCoefficient(m: string)
    requires m == "pet"
    ensures CoefficientSingle(m, 12, true) == Ok(1.0)
  {
    FamilyOfPet();
  }

  lemma PetCell(layer: Layer)
    requires layer.material == "pet" && layer.micron == [DigitChar(1), DigitChar(2)]
    ensures MicronOrZero(layer) == Ok(12) && CellOrZero(layer, 12, true) == Ok(1.0)
  {
    PetCoefficient(layer.material);
    NormalizeKeeps(layer.material);
    FilmCell(layer, layer.material, 12, true, 1.0);
  }

  lemma PeCurve()
    ensures KnotsAscend(PE) && Curve(PE, 30) == 2.0
  {
    PeKnots(PE);
  }

  lemma McpCurve()
    ensures KnotsAscend(MCP_CPP) && Curve(MCP_CPP, 30) == 1.6
  {
    McpCppKnots(MCP_CPP);
  }

  /** The first layer is "pet" of twelve, and there is no third one. */
  predicate PetFirst(first: Layer, third: Layer) {
    first.material == "pet" && first.micron == [DigitChar(1), DigitChar(2)] && third == Layer("", "")
  }

  lemma PetLayer(first: Layer, third: Layer)
    requires PetFirst(first, third)
    ensures Tight(first.material) && first.material != "" && Tight(first.micron) && first.micron != ""
    ensures first.material == "pet" && first.micron == [DigitChar(1), DigitChar(2)] && third == Layer("", "")
  {
  }

  lemma PetAnd(first: Layer, second: Layer, third: Layer, micron: nat, c: real)
    requires PetFirst(first, third) && !IsEmptyMaterial(second.material) && Trim(second.micron) != ""
    requires MicronOrZero(second) == Ok(micron) && CellOrZero(second, micron, false) == Ok(c) && c > 0.0
    ensures LayerCoefficients(first, second, third) == Ok((1.0, c))
  {
    PetLayer(first, third);
    hide *;
    PetCell(first);
    PairIs(first, second, 12, micron, 1.0, c);
    TwoLayers(first, second, (1.0, c));
  }

  lemma PeOqCoefficient(m: string)
    requires m == "pe oq"
    ensures CoefficientSingle(m, 30, false) == Ok(2.0)
  {
    PeOqIs();
    PeCurve();
  }

  lemma FilmName(m: string, n: string)
    requires (m == "pe oq" && n == "peoq") || (m == n == "mcp")
    ensures n != "" && n[0] != '-' && n != "yoq" && n != "yuq" && Free(m, '/') && Tight(m) && m != ""
  {
  }

  lemma PeOqCell(layer: Layer)
    requires layer.material == "pe oq" && layer.micron == [DigitChar(3), DigitChar(0)]
    ensures !IsEmptyMaterial(layer.material) && Trim(layer.micron) == layer.micron
    ensures MicronOrZero(layer) == Ok(30) && CellOrZero(layer, 30, false) == Ok(2.0)
  {
    hide *;
    var n := "peoq";
    PeOqName();
    FilmName(layer.material, n);
    PeOqCoefficient(layer.material);
    FilmCell(layer, n, 30, false, 2.0);
  }

  lemma PetAndPe(first: Layer, second: Layer, third: Layer)
    requires PetFirst(first, third) && second.material == "pe oq" && second.micron == [DigitChar(3), DigitChar(0)]
    ensures LayerCoefficients(first, second, third) == Ok((1.0, 2.0))
  {
    PeOqCell(second);
    PetAnd(first, second, third, 30, 2.0);
  }

  lemma McpCoefficient(m: string)
    requires m == "mcp"
    ensures CoefficientSingle(m, 30, false) == Ok(1.6)
  {
    FamilyOfMcp();
    McpCurve();
  }

  lemma McpCell(layer: Layer)
    requires layer.material == "mcp" && layer.micron == [DigitChar(3), DigitChar(0)]
    ensures !IsEmptyMaterial(layer.material) && Trim(layer.micron) == layer.micron
    ensures MicronOrZero(layer) == Ok(30) && CellOrZero(layer, 30, false) == Ok(1.6)
  {
    hide *;
    FamilyOfMcp();
    FilmName(layer.material, layer.material);
    McpCoefficient(layer.material);
    FilmCell(layer, layer.material, 30, false, 1.6);
  }

  lemma PetAndMcp(first: Layer, second: Layer, third: Layer)
    requires PetFirst(first, third) && second.material == "mcp" && second.micron == [DigitChar(3), DigitChar(0)]
    ensures LayerCoefficients(first, second, third) == Ok((1.0, 1.6))
  {
    McpCell(second);
    PetAnd(first, second, third, 30, 1.6);
  }

  // ---------------------------------------------------------------------- lengths

  /** The run is the next whole five hundred. */
  lemma RoundedIs(r: real, v: real, k: int)
    requires LeastMultipleAbove(r, v, 500.0) && (k - 1) as real * 500.0 < v <= k as real * 500.0
    ensures r == k as real * 500.0
  {
    assert v <= Multiple(k, 500.0);
    var j :| r == Multiple(j, 500.0);
    assert j as real * 500.0 >= v > (k - 1) as real * 500.0;
    assert j > k - 1;
  }

  lemma Calculates(request: Request, kg: real, widthMm: real, waste: real, pair: (real, real)) returns (c: Calculation)
    requires request.kg == Some(kg) && request.widthMm == Some(widthMm) && widthMm > 0.0 && waste >= 0.0
    requires waste == if request.wastePercent.Some? then request.wastePercent.value else 5.0
    requires LayerCoefficients(request.first, request.second, request.third) == Ok(pair)
    ensures CalculateSingle(request) == Ok(c) && Weighs(c, kg, widthMm, waste) && c.coeffSum == pair.0 + pair.1
  {
    c := CalculateSingle(request).value;
  }

  lemma RunIs(c: Calculation, kg: real, widthSm: real, waste: real, p: real, k: int)
    requires Weighs(c, kg, widthSm * 10.0, waste) && waste >= 0.0 && p == c.coeffSum * widthSm && p > 0.0
    requires (k - 1) as real * 50000.0 * p < kg * 6000.0 * (100.0 + waste) <= k as real * 50000.0 * p
    ensures c.roundedLength == k as real * 500.0
  {
    assert c.widthSm == widthSm;
    WeighsIs(c.baseLength, c.coeffSum, widthSm, p, kg * 6000.0);
    Sandwich(c.baseLength, p, kg * 6000.0, waste, c.wasteLength, k);
    RoundedIs(c.roundedLength, c.baseLength + c.wasteLength, k);
  }

  /** A run's length, in whole five hundreds, from its coefficients. */
  lemma LengthIs(request: Request, kg: real, widthSm: real, waste: real, pair: (real, real), p: real, k: int)
    requires request.kg == Some(kg) && request.widthMm == Some(widthSm * 10.0) && widthSm > 0.0 && waste >= 0.0
    requires waste == if request.wastePercent.Some? then request.wastePercent.value else 5.0
    requires LayerCoefficients(request.first, request.second, request.third) == Ok(pair)
    requires p == (pair.0 + pair.1) * widthSm && p > 0.0
    requires (k - 1) as real * 50000.0 * p < kg * 6000.0 * (100.0 + waste) <= k as real * 50000.0 * p
    ensures CalculateSingle(request).Ok? && CalculateSingle(request).value.roundedLength == k as real * 500.0
  {
    hide *;
    var c := Calculates(request, kg, widthSm * 10.0, waste, pair);
    RunIs(c, kg, widthSm, waste, p, k);
  }

  lemma WeighsIs(base: real, sum: real, widthSm: real, p: real, total: real)
    requires base * sum * widthSm == total && p == sum * widthSm
    ensures base * p == total
  {
  }

  lemma Sandwich(base: real, p: real, total: real, waste: real, wasted: real, k: int)
    requires p > 0.0 && base * p == total && wasted * 100.0 == base * waste && waste >= 0.0
    requires (k - 1) as real * 50000.0 * p < total * (100.0 + waste) <= k as real * 50000.0 * p
    ensures (k - 1) as real * 500.0 < base + wasted <= k as real * 500.0
  {
    var v := (base + wasted) * 100.0;
    assert v == base * (100.0 + waste);
    assert v * p == total * (100.0 + waste) by { assert base * (100.0 + waste) * p == base * p * (100.0 + waste); }
    Cancel(v, k as real * 50000.0, p);
    Cancel((k - 1) as real * 50000.0, v, p);
  }

  lemma Cancel(x: real, y: real, p: real)
    requires p > 0.0
    ensures x * p <= y * p <==> x <= y
  {
    if x < y { MultiplyLess(x, y, p); }
    if y < x { MultiplyLess(y, x, p); }
  }

  lemma MultiplyLess(x: real, y: real, p: real)
    requires p > 0.0 && x < y
    ensures x * p < y * p
  {
    assert (y - x) * p > 0.0;
  }

  // --------------------------------------------------------------------- variants

  lemma {:induction false} SplitOnNone(s: string, sep: string, from: nat)
    requires sep != [] && from <= |s| && sep[0] !in s
    ensures SplitOn(s, sep, from) == [s]
    decreases |s| - from
  {
    if from + |sep| <= |s| {
      assert s[from..from + |sep|][0] == s[from] && s[from] in s;
      SplitOnNone(s, sep, from + 1);
    }
  }

  lemma {:induction false} SplitOnFirst(a: string, sep: string, b: string, from: nat)
    requires sep != [] && from <= |a| && sep[0] !in a
    ensures SplitOn(a + sep + b, sep, from) == [a] + SplitOn(b, sep, 0)
    decreases |a| - from
  {
    var s := a + sep + b;
    if from == |a| {
      assert s[from..from + |sep|] == sep && s[..from] == a && s[from + |sep|..] == b;
    } else {
      assert s[from..from + |sep|][0] == s[from] == a[from] && a[from] in a;
      SplitOnFirst(a, sep, b, from + 1);
    }
  }

  /** A material that names no alternative. */
  lemma NoAlternative(layer: Layer)
    requires 'y' !in layer.material && Free(layer.material, '/') && Tight(layer.material)
    ensures Alternatives(layer) == [layer.material]
  {
    SplitOnNone(layer.material, "yoki", 0);
    TrimOfTight(layer.material, IsWhite);
    TrimAllCons(layer.material, []);
    assert [layer.material] + [] == [layer.material];
    if layer.material != "" {
      FlatOne(layer.material, layer.micron);
    }
  }

  lemma FlatOne(part: string, micron: string)
    requires Free(part, '/') && Tight(part) && part != ""
    ensures FlatSlash([part], micron) == [part]
  {
    OnePart(part);
    assert [part][1..] == [];
  }

  lemma FlatTwo(a: string, b: string, micron: string)
    requires Free(a, '/') && Tight(a) && a != "" && Free(b, '/') && Tight(b) && b != ""
    ensures FlatSlash([a, b], micron) == [a, b]
  {
    OnePart(a);
    FlatOne(b, micron);
    assert [a, b][1..] == [b];
  }

  /** A material of two alternatives. */
  lemma TwoAlternatives(layer: Layer, a: string, b: string)
    requires layer.material == a + " yoki " + b && 'y' !in a && 'y' !in b
    requires Free(a, '/') && Tight(a) && a != "" && Free(b, '/') && Tight(b) && b != ""
    ensures Alternatives(layer) == [a, b]
  {
    assert layer.material == (a + " ") + "yoki" + (" " + b);
    SplitOnFirst(a + " ", "yoki", " " + b, 0);
    SplitOnNone(" " + b, "yoki", 0);
    BlankAround(a, b);
    TrimAllCons(a + " ", [" " + b]);
    TrimAllCons(" " + b, []);
    assert [" " + b] + [] == [" " + b] && [a + " "] + [" " + b] == [a + " ", " " + b];
    FlatTwo(a, b, layer.micron);
  }

  lemma BlankAround(a: string, b: string)
    requires Tight(a) && Tight(b)
    ensures Trim(a + " ") == a && Trim(" " + b) == b
  {
    TrimIsMiddle([], a, " ", IsWhite);
    TrimIsMiddle(" ", b, [], IsWhite);
    assert [] + a + " " == a + " " && " " + b + [] == " " + b;
  }

  lemma OneRun(request: Request, a: string, b: string, c: string)
    ensures SecondRuns(request, a, [b], [c]) == [WithMaterials(request, a, b, c)]
  {
    assert [c][..0] == [] && [b][..0] == [];
    assert ThirdRuns(request, a, b, [c]) == ThirdRuns(request, a, b, []) + [WithMaterials(request, a, b, c)];
    assert SecondRuns(request, a, [b], [c]) == SecondRuns(request, a, [], [c]) + ThirdRuns(request, a, b, [c]);
  }

  lemma OneVariant(request: Request, a: string, b: string, c: string)
    ensures FirstRuns(request, [a], [b], [c]) == [WithMaterials(request, a, b, c)]
  {
    OneRun(request, a, b, c);
    assert [a][..0] == [];
  }

  lemma TwoVariants(request: Request, a: string, b: string, d: string, c: string)
    ensures FirstRuns(request, [a], [b, d], [c]) == [WithMaterials(request, a, b, c), WithMaterials(request, a, d, c)]
  {
    OneRun(request, a, b, c);
    OneRun(request, a, d, c);
    assert [b, d][..1] == [b] && [a][..0] == [];
    assert SecondRuns(request, a, [b, d], [c]) == SecondRuns(request, a, [b], [c]) + ThirdRuns(request, a, d, [c]);
    assert SecondRuns(request, a, [d], [c]) == SecondRuns(request, a, [], [c]) + ThirdRuns(request, a, d, [c]) by {
      assert [d][..0] == [];
    }
    assert FirstRuns(request, [a], [b, d], [c])
        == FirstRuns(request, [], [b, d], [c]) + SecondRuns(request, a, [b, d], [c]);
  }

  lemma SameMaterials(request: Request)
    ensures WithMaterials(request, request.first.material, request.second.material, request.third.material) == request
  {
  }

  /** A well-formed request is calculated variant by variant. */
  lemma CalculatesVariants(request: Request)
    requires request.kg.Some? && request.kg.value > 0.0 && request.widthMm.Some? && request.widthMm.value > 0.0
    requires request.wastePercent.Some? ==> request.wastePercent.value >= 0.0
    ensures AllVariantsAllowed(request) && Calculate(request) == TryAll(Variants(request))
  {
    VariantsAllowed(request);
  }

  lemma TryOne(r: Request, c: Calculation)
    requires WidthAllowed(r) && CalculateSingle(r) == Ok(c)
    ensures TryAll([r]) == Ok([c])
  {
    hide LayerCoefficients, Lengths, Weighs;
    var rs := [r];
    assert rs[..0] == [] && rs[0] == r;
    assert TryAll(rs[..0]) == Ok([]);
    assert [] + [c] == [c];
    assert TryAll(rs) == Ok([] + [c]);
  }

  lemma TryTwo(r: Request, q: Request, c: Calculation, d: Calculation)
    requires WidthAllowed(r) && CalculateSingle(r) == Ok(c) && WidthAllowed(q) && CalculateSingle(q) == Ok(d)
    ensures TryAll([r, q]) == Ok([c, d])
  {
    hide LayerCoefficients, Lengths, Weighs;
    TryOne(r, c);
    var rs := [r, q];
    assert rs[..1] == [r] && rs[1] == q;
    assert [c] + [d] == [c, d];
    assert TryAll(rs) == Ok([c] + [d]);
  }

  // ------------------------------------------------------------------- the orders

  /** Three hundred kilograms, 530 wide, "pet" of twelve and a second layer of thirty. */
  function Order(second: string, waste: Option<real>): Request {
    Request(Some(300.0), Some(530.0), waste, Layer("pet", "12"), Layer(second, "30"), Layer("", ""))
  }

  lemma OrderLayers(second: string, waste: Option<real>)
    ensures var r := Order(second, waste);
            && r.kg == Some(300.0) && r.widthMm == Some(53.0 * 10.0) && r.wastePercent == waste
            && PetFirst(r.first, r.third) && r.second == Layer(second, [DigitChar(3), DigitChar(0)])
  {
  }

  /** With the usual five percent the run is 12000 long, with ten it is 12500. */
  lemma PeOqLength(waste: Option<real>, k: int)
    requires (waste == None && k == 24) || (waste == Some(10.0) && k == 25)
    ensures CalculateSingle(Order("pe oq", waste)).Ok?
    ensures CalculateSingle(Order("pe oq", waste)).value.roundedLength == k as real * 500.0
  {
    var r := Order("pe oq", waste);
    OrderLayers("pe oq", waste);
    hide *;
    PetAndPe(r.first, r.second, r.third);
    LengthIs(r, 300.0, 53.0, if waste.Some? then waste.value else 5.0, (1.0, 2.0), 159.0, k);
  }

  lemma McpLength()
    ensures CalculateSingle(Order("mcp", None)).Ok?
    ensures CalculateSingle(Order("mcp", None)).value.roundedLength == 14000.0
  {
    var r := Order("mcp", None);
    OrderLayers("mcp", None);
    hide *;
    PetAndMcp(r.first, r.second, r.third);
    LengthIs(r, 300.0, 53.0, 5.0, (1.0, 1.6), 137.8, 28);
  }

  lemma NamesOf(request: Request)
    requires request.first.material == "pet" && request.third.material == ""
    requires request.second.material in {"pe oq", "mcp"}
    ensures Alternatives(request.first) == ["pet"] && Alternatives(request.third) == [""]
    ensures Alternatives(request.second) == [request.second.material]
  {
    hide *;
    PlainNames(request.first.material);
    PlainNames(request.second.material);
    PlainNames(request.third.material);
    NoAlternative(request.first);
    NoAlternative(request.second);
    NoAlternative(request.third);
  }

  lemma PlainNames(m: string)
    requires m in {"pet", "pe oq", "mcp", ""}
    ensures 'y' !in m && Free(m, '/') && Tight(m)
  {
  }

  lemma SingleVariant(request: Request)
    requires Alternatives(request.first) == [request.first.material]
    requires Alternatives(request.second) == [request.second.material]
    requires Alternatives(request.third) == [request.third.material]
    ensures Variants(request) == [request]
  {
    OneVariant(request, request.first.material, request.second.material, request.third.material);
    SameMaterials(request);
  }

  lemma OrderNumbers(second: string, waste: Option<real>)
    requires waste.Some? ==> waste.value >= 0.0
    ensures var r := Order(second, waste);
            && r.kg == Some(300.0) && r.widthMm == Some(530.0) && r.wastePercent == waste && WidthAllowed(r)
            && r.first.material == "pet" && r.second.material == second && r.third.material == ""
  {
  }

  /** `calculates_formula_with_waste_and_rounding` and `calculates_with_custom_waste_percent`. */
  lemma WasteAndRounding(waste: Option<real>, k: int)
    requires (waste == None && k == 24) || (waste == Some(10.0) && k == 25)
    ensures var results := Calculate(Order("pe oq", waste));
            results.Ok? && |results.value| == 1 && results.value[0].roundedLength == k as real * 500.0
  {
    hide *;
    var r := Order("pe oq", waste);
    OrderNumbers("pe oq", waste);
    NamesOf(r);
    SingleVariant(r);
    CalculatesVariants(r);
    PeOqLength(waste, k);
    TryOne(r, CalculateSingle(r).value);
  }

  lemma YokiNames(layer: Layer)
    requires layer.material == "pe oq yoki mcp"
    ensures Alternatives(layer) == ["pe oq", "mcp"]
  {
    assert "pe oq" + " yoki " + "mcp" == "pe oq yoki mcp";
    TwoAlternatives(layer, "pe oq", "mcp");
  }

  lemma YokiVariants(request: Request)
    requires request == Order("pe oq yoki mcp", None)
    ensures Variants(request) == [Order("pe oq", None), Order("mcp", None)]
  {
    hide *;
    OrderNumbers("pe oq yoki mcp", None);
    YokiNames(request.second);
    PlainNames(request.first.material);
    PlainNames(request.third.material);
    NoAlternative(request.first);
    NoAlternative(request.third);
    TwoVariants(request, "pet", "pe oq", "mcp", "");
    VariantsAre(request, "pe oq", "mcp");
  }

  lemma VariantsAre(request: Request, a: string, b: string)
    requires request == Order("pe oq yoki mcp", None)
    requires Alternatives(request.first) == ["pet"] && Alternatives(request.third) == [""]
    requires Alternatives(request.second) == [a, b]
    ensures Variants(request) == FirstRuns(request, ["pet"], [a, b], [""])
    ensures WithMaterials(request, "pet", a, "") == Order(a, None)
    ensures WithMaterials(request, "pet", b, "") == Order(b, None)
  {
    hide Alternatives, FirstRuns;
  }

  /** `calculates_alternative_material_variants`. */
  lemma AlternativeVariants()
    ensures var results := Calculate(Order("pe oq yoki mcp", None));
            && results.Ok? && |results.value| == 2
            && results.value[0].roundedLength == 12000.0 && results.value[1].roundedLength == 14000.0
  {
    hide *;
    var r, p, m := Order("pe oq yoki mcp", None), Order("pe oq", None), Order("mcp", None);
    OrderNumbers("pe oq yoki mcp", None);
    OrderNumbers("pe oq", None);
    OrderNumbers("mcp", None);
    YokiVariants(r);
    CalculatesVariants(r);
    PeOqLength(None, 24);
    McpLength();
    TryTwo(p, m, CalculateSingle(p).value, CalculateSingle(m).value);
  }

  lemma PeOqMicron(layer: Layer)
    requires layer.material == "pe oq" && layer.micron == [DigitChar(5), DigitChar(5)]
    ensures !IsEmptyMaterial(layer.material) && Trim(layer.micron) == layer.micron
    ensures MicronOrZero(layer) == Ok(55) && CellOrZero(layer, 55, false) == Ok(3.6)
  {
    hide *;
    var n := "peoq";
    PeOqName();
    FilmName(layer.material, n);
    PeOqThick(layer.material);
    FilmCell(layer, n, 55, false, 3.6);
  }

  lemma PeCurveThick()
    ensures KnotsAscend(PE) && Curve(PE, 55) == 3.6
  {
    PeKnots(PE);
  }

  lemma PeOqThick(m: string)
    requires m == "pe oq"
    ensures CoefficientSingle(m, 55, false) == Ok(3.6)
  {
    PeOqIs();
    PeCurveThick();
  }

  /** The order of `order_sheet_row_matches_legacy_excel_columns`: six hundred kilograms, 735 wide, five
      percent, "pet" of twelve and "pe oq" of fifty-five. It runs 11500. */
  lemma SheetOrderLength(request: Request)
    requires request == Request(Some(600.0), Some(735.0), Some(5.0),
                                Layer("pet", "12"), Layer("pe oq", "55"), Layer("", ""))
    ensures var results := Calculate(request);
            results.Ok? && |results.value| == 1 && results.value[0].roundedLength == 11500.0
  {
    hide *;
    SheetOrder(request);
    PeOqMicron(request.second);
    PetAnd(request.first, request.second, request.third, 55, 3.6);
    LengthIs(request, 600.0, 73.5, 5.0, (1.0, 3.6), 338.1, 23);
    NamesOf(request);
    SingleVariant(request);
    CalculatesVariants(request);
    TryOne(request, CalculateSingle(request).value);
  }

  lemma SheetOrder(request: Request)
    requires request == Request(Some(600.0), Some(735.0), Some(5.0),
                                Layer("pet", "12"), Layer("pe oq", "55"), Layer("", ""))
    ensures PetFirst(request.first, request.third) && WidthAllowed(request)
    ensures request.second.micron == [DigitChar(5), DigitChar(5)] && Trim(request.second.micron) != ""
    ensures 735.0 == 73.5 * 10.0
  {
    TrimOfTight("55", IsWhite);
  }

  // ------------------------------------------------------------- a combined layer

  /** A layer of two films, with a micron for each. */
  predicate Combined(layer: Layer, a: string, b: string, m: nat, n: nat) {
    && layer == Layer(a + "/" + b, MicronList([m, n]))
    && Free(a, '/') && Tight(a) && a != "" && Free(b, '/') && Tight(b) && b != ""
  }

  lemma CombinedMicrons(m: nat, n: nat)
    requires m < 100 && n < 100
    ensures var text := MicronList([m, n]);
            && ParseMicronParts(text) == Ok([m, n]) && ParseMicron(text) == Ok(if m >= n then m else n)
            && Trim(text) == text
  {
    hide ParseMicronParts, ParseMicron, MicronList, Trim, Tight;
    var text := MicronList([m, n]);
    MicronsRead([m, n]);
    ListEnds([m, n]);
    TightIs(text);
    assert ParseMicron(text).value in [m, n] && m in [m, n] && n in [m, n];
  }

  lemma TightIs(s: string)
    requires Tight(s)
    ensures Trim(s) == s
  {
    TrimOfTight(s, IsWhite);
  }

  lemma CombinedMaterials(a: string, b: string)
    requires Free(a, '/') && Tight(a) && a != "" && Free(b, '/') && Tight(b) && b != ""
    ensures SplitParts(a + "/" + b) == [a, b]
  {
    hide SplitParts;
    OnePart(a);
    OnePart(b);
    PartsOfBoth(a, b);
    assert [a] + [b] == [a, b];
  }

  lemma CombinedParts(layer: Layer, a: string, b: string, m: nat, n: nat)
    requires Combined(layer, a, b, m, n) && m < 100 && n < 100
    ensures SplitParts(layer.material) == [a, b] && ParseMicronParts(layer.micron) == Ok([m, n])
    ensures ParseMicron(layer.micron) == Ok(if m >= n then m else n) && Trim(layer.micron) == layer.micron
  {
    hide SplitParts, ParseMicronParts, ParseMicron, MicronList, Trim, Tight;
    CombinedMaterials(a, b);
    CombinedMicrons(m, n);
  }

  lemma CombinedCell(layer: Layer, a: string, b: string, m: nat, n: nat, x: real, y: real)
    requires Combined(layer, a, b, m, n) && m < n < 100 && !IsEmptyMaterial(layer.material)
    requires CoefficientSingle(a, m, false) == Ok(x) && CoefficientSingle(b, n, false) == Ok(y)
    ensures MicronOrZero(layer) == Ok(n) && CellOrZero(layer, n, false) == Ok(x + y)
  {
    hide CoefficientSingle, ParseMicronParts, SplitParts, ParseMicron, IsEmptyMaterial, Combined, Trim;
    CombinedParts(layer, a, b, m, n);
    TwoFilms(a, b, m, n, x, y);
  }

  lemma TwoFilms(a: string, b: string, m: nat, n: nat, x: real, y: real)
    requires CoefficientSingle(a, m, false) == Ok(x) && CoefficientSingle(b, n, false) == Ok(y)
    ensures SumCoefficients([a, b], [m, n], false) == Ok(x + y)
  {
    hide *;
    CoefficientsAdd([a], [m], [b], [n], false);
    OneCoefficient(a, m, false);
    OneCoefficient(b, n, false);
    assert [a] + [b] == [a, b] && [m] + [n] == [m, n];
    PlusIs(x, y);
  }

  lemma PlusIs(x: real, y: real)
    ensures Plus(Ok(x), Ok(y)) == Ok(x + y)
  {
  }

  lemma OppmCoefficient(m: string)
    requires m == "oppm"
    ensures CoefficientSingle(m, 20, false) == Ok(1.0)
  {
    FamilyOfOppm();
  }

  lemma PePrCoefficient(m: string)
    requires m == "pe pr"
    ensures CoefficientSingle(m, 30, false) == Ok(2.0)
  {
    PePrIs();
    PeCurve();
  }

  lemma DisplayNames()
    ensures "oppm" + "/" + "pe pr" == "oppm/pe pr" && 'y' !in "oppm/pe pr"
    ensures Free("oppm", '/') && Tight("oppm") && Free("pe pr", '/') && Tight("pe pr")
  {
  }

  lemma DisplayMicrons()
    ensures MicronList([20, 30]) == "20/30"
  {
    TwoDigits(20, "20");
    TwoDigits(30, "30");
    assert [20, 30][1..] == [30] && MicronList([30]) == NatText(30);
    assert MicronList([20, 30]) == NatText(20) + "/" + NatText(30);
  }

  lemma DisplayMaterial(m: string)
    requires m == "oppm" + "/" + "pe pr"
    ensures !IsEmptyMaterial(m)
  {
    hide Normalize, IsEmptyMaterial;
    NormalizeKeeps("oppm");
    MoreBehind("oppm", "/" + "pe pr");
    assert "oppm" + ("/" + "pe pr") == m;
  }

  lemma MoreBehind(a: string, rest: string)
    requires Normalize(a) == a && a != "" && a[0] == 'o'
    ensures !IsEmptyMaterial(a + rest)
  {
    hide Normalize, IsEmptyMaterial;
    NormalizeOfTwo(a, rest);
    HasMaterial(a + rest, Normalize(a + rest), 0);
  }

  lemma DisplayCell(layer: Layer)
    requires layer == Layer("oppm/pe pr", "20/30")
    ensures !IsEmptyMaterial(layer.material) && Trim(layer.micron) == layer.micron && layer.micron != ""
    ensures MicronOrZero(layer) == Ok(30) && CellOrZero(layer, 30, false) == Ok(3.0)
    ensures Alternatives(layer) == [layer.material]
  {
    hide *;
    var a, b := "oppm", "pe pr";
    DisplayNames();
    DisplayMicrons();
    CombinedIs(layer, a, b, 20, 30);
    DisplayMaterial(layer.material);
    OppmCoefficient(a);
    PePrCoefficient(b);
    CombinedParts(layer, a, b, 20, 30);
    CombinedCell(layer, a, b, 20, 30, 1.0, 2.0);
    CombinedAlternative(layer, a, b, 20, 30);
  }

  lemma CombinedIs(layer: Layer, a: string, b: string, m: nat, n: nat)
    requires layer == Layer(a + "/" + b, MicronList([m, n]))
    requires Free(a, '/') && Tight(a) && a != "" && Free(b, '/') && Tight(b) && b != ""
    ensures Combined(layer, a, b, m, n)
  {
  }

  lemma SlashKept(value: string, micron: string)
    requires |SplitParts(value)| == 2 && ParseMicronParts(micron).Ok? && |ParseMicronParts(micron).value| == 2
    ensures SlashAlternatives(value, micron) == [value]
  {
    hide SplitParts, ParseMicronParts;
  }

  lemma FlatSingle(value: string, micron: string)
    ensures FlatSlash([value], micron) == SlashAlternatives(value, micron)
  {
    hide SlashAlternatives;
    assert [value][1..] == [];
  }

  lemma OneAlternative(layer: Layer)
    requires SplitOn(layer.material, "yoki", 0) == [layer.material] && Trim(layer.material) == layer.material != ""
    requires FlatSlash([layer.material], layer.micron) == [layer.material]
    ensures Alternatives(layer) == [layer.material]
  {
    hide Trim, SplitOn;
    TrimAllCons(layer.material, []);
    assert [layer.material] + [] == [layer.material];
  }

  /** A micron for each film: the slash names no alternatives. */
  lemma CombinedAlternative(layer: Layer, a: string, b: string, m: nat, n: nat)
    requires Combined(layer, a, b, m, n) && m < 100 && n < 100 && 'y' !in layer.material
    ensures Alternatives(layer) == [layer.material]
  {
    hide SplitParts, ParseMicronParts, Alternatives, SlashAlternatives, FlatSlash, SplitOn, Trim;
    CombinedParts(layer, a, b, m, n);
    SlashKept(layer.material, layer.micron);
    FlatSingle(layer.material, layer.micron);
    SplitOnNone(layer.material, "yoki", 0);
    TightBoth(a, b);
    TrimOfTight(layer.material, IsWhite);
    TrimIs(layer.material);
    OneAlternative(layer);
  }

  lemma TrimIs(s: string)
    ensures Trim(s) == TrimWith(s, IsWhite)
  {
  }

  lemma TightBoth(a: string, b: string)
    requires Tight(a) && a != "" && Tight(b) && b != ""
    ensures Tight(a + "/" + b)
  {
  }

  lemma PlainName(w: string)
    requires M.PlainWord(w) && Free(w, 'b')
    ensures M.NormalName(w)
  {
    M.OneWord(w);
    WithoutBopp(w);
  }

  lemma WithoutBopp(name: string)
    requires Free(name, 'b')
    ensures !Contains(name, "bopp") && name != "bopp" && !("bopp " <= name)
  {
    if Contains(name, "bopp") { HoldsB(name); }
    if "bopp" <= name { BeginsB(name); }
  }

  lemma BeginsB(name: string)
    requires "bopp" <= name
    ensures 'b' in name
  {
    assert name[0] == 'b';
  }

  lemma HoldsB(name: string)
    requires Contains(name, "bopp")
    ensures 'b' in name
  {
    var before, after := ContainsElim(name, "bopp");
    assert name[|before|] == 'b';
  }

  lemma TwoWordName(v: string, w: string)
    requires M.PlainWord(v) && M.PlainWord(w) && Free(v, 'b') && Free(w, 'b')
    ensures M.NormalName(v + " " + w)
  {
    assert M.PlainWords([v, w]);
    M.CompactOfJoin([v, w]);
    assert Join([v, w], " ") == v + " " + w by {
      assert [v, w][1..] == [w];
    }
    WithoutBopp(v + " " + w);
  }

  lemma PrintableIs(layer: Layer, digit: char)
    requires layer.material != [] && M.NormalName(layer.material) && Free(layer.material, '+')
    requires (forall i | 0 <= i < |layer.micron| :: M.KeptInMicron(layer.micron[i]))
    requires digit in layer.micron && IsDigit(digit)
    ensures M.Printable(layer)
  {
    M.HasDigit(layer.micron, digit);
  }

  lemma DisplayWords()
    ensures M.PlainWord("pet") && M.PlainWord("oppm/pe") && M.PlainWord("pr")
    ensures Free("pet", 'b') && Free("oppm/pe", 'b') && Free("pr", 'b')
    ensures Free("pet", '+') && Free("oppm/pe pr", '+')
  {
  }

  lemma DisplayDigits()
    ensures forall i | 0 <= i < |"12"| :: M.KeptInMicron("12"[i])
    ensures forall i | 0 <= i < |"20/30"| :: M.KeptInMicron("20/30"[i])
    ensures '1' in "12" && '2' in "20/30" && IsDigit('1') && IsDigit('2')
  {
    assert "12"[0] == '1' && "20/30"[0] == '2';
  }

  lemma DisplayPrintable()
    ensures M.AllPrintable([Layer("pet", "12"), Layer("oppm/pe pr", "20/30")])
  {
    DisplayBothPrintable();
  }

  lemma DisplayBothPrintable()
    ensures M.Printable(Layer("pet", "12")) && M.Printable(Layer("oppm/pe pr", "20/30"))
  {
    hide *;
    DisplayWords();
    DisplayDigits();
    PlainName("pet");
    TwoWordName("oppm/pe", "pr");
    assert "oppm/pe" + " " + "pr" == "oppm/pe pr";
    PrintableIs(Layer("pet", "12"), '1');
    PrintableIs(Layer("oppm/pe pr", "20/30"), '2');
  }

  lemma TwoPrinted(a: Layer, b: Layer)
    ensures M.PrintLayers([a, b]) == a.material + " " + a.micron + " + " + (b.material + " " + b.micron)
  {
    assert [a, b][1..] == [b] && [b][1..] == [];
    assert M.PrintAll([b]) == [M.PrintLayer(b)];
    assert M.PrintAll([a, b]) == [M.PrintLayer(a)] + [M.PrintLayer(b)];
    JoinCons(M.PrintLayer(a), [M.PrintLayer(b)], " + ");
  }

  lemma DisplayText()
    ensures M.PrintLayers([Layer("pet", "12"), Layer("oppm/pe pr", "20/30")]) == "pet 12 + oppm/pe pr 20/30"
  {
    TwoPrinted(Layer("pet", "12"), Layer("oppm/pe pr", "20/30"));
    assert "pet" + " " + "12" == "pet 12" && "oppm/pe pr" + " " + "20/30" == "oppm/pe pr 20/30";
    assert "pet 12" + " + " + "oppm/pe pr 20/30" == "pet 12 + oppm/pe pr 20/30";
  }

  /** `parses_material_display_when_layers_are_empty`: the text is read as two layers, the second one of
      two films, and the run is 74500 long. */
  lemma DisplayOrder(request: Request)
    requires request == Request(Some(3000.0), Some(635.0), None, Layer("", ""), Layer("", ""), Layer("", ""))
    ensures var results := M.CalculateShown(request, Some("pet 12 + oppm/pe pr 20/30"));
            results.Ok? && |results.value| == 1 && results.value[0].roundedLength == 74500.0
  {
    hide *;
    var layers := [Layer("pet", "12"), Layer("oppm/pe pr", "20/30")];
    DisplayPrintable();
    DisplayText();
    BlankLayer();
    M.DisplayCalculates(request, layers);
    NamedLayers(layers[0], layers[1]);
    DisplayLength(request.(first := layers[0], second := layers[1]));
  }

  lemma NamedLayers(a: Layer, b: Layer)
    ensures forall other :: M.LayerOr([a, b], 0, other) == a && M.LayerOr([a, b], 1, other) == b
    ensures forall other :: M.LayerOr([a, b], 2, other) == other
  {
  }

  lemma BlankLayer()
    ensures M.Blank(Layer("", ""))
  {
    TrimOfTight("", IsWhite);
  }

  lemma DisplayLength(request: Request)
    requires request == Request(Some(3000.0), Some(635.0), None,
                                Layer("pet", "12"), Layer("oppm/pe pr", "20/30"), Layer("", ""))
    ensures var results := Calculate(request);
            results.Ok? && |results.value| == 1 && results.value[0].roundedLength == 74500.0
  {
    hide *;
    DisplayFields(request);
    DisplayCell(request.second);
    PetAnd(request.first, request.second, request.third, 30, 3.0);
    LengthIs(request, 3000.0, 63.5, 5.0, (1.0, 3.0), 254.0, 149);
    PlainNames(request.first.material);
    PlainNames(request.third.material);
    NoAlternative(request.first);
    NoAlternative(request.third);
    SingleVariant(request);
    CalculatesVariants(request);
    TryOne(request, CalculateSingle(request).value);
  }

  lemma DisplayFields(request: Request)
    requires request == Request(Some(3000.0), Some(635.0), None,
                                Layer("pet", "12"), Layer("oppm/pe pr", "20/30"), Layer("", ""))
    ensures PetFirst(request.first, request.third) && WidthAllowed(request) && 635.0 == 63.5 * 10.0
    ensures request.first.material == "pet" && request.third.material == ""
  {
  }
}
