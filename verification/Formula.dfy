/** The film formula of src/core/formula.rs: material families, coefficients, variants, lengths.
    Numbers are exact reals; letters are lowered in ASCII. */
module Formula {
  import opened Text
  import opened Decimals
  import opened Interpolation
  import opened EditDistance

  datatype FormulaError =
    | NotFilled(name: string)
    | BadKg | BadWidth | BadWaste
    | BadMicron(text: string)
    | ThirdMicronMissing
    | LayersDiffer(material: string, text: string)
    | UnknownMaterial(material: string)
    | NoCoefficient(material: string, micron: nat)
    | NoLayer
    | NoVariant

  datatype Result<+T> = Ok(value: T) | Err(error: FormulaError)

  datatype Layer = Layer(material: string, micron: string)

  datatype Request = Request(
    kg: Option<real>,
    widthMm: Option<real>,
    wastePercent: Option<real>,
    first: Layer,
    second: Layer,
    third: Layer)

  datatype Calculation = Calculation(
    firstCoeff: real, otherCoeff: real, coeffSum: real,
    widthSm: real, baseLength: real, wasteLength: real, roundedLength: real)

  // --------------------------------------------------------------- text helpers

  predicate IsAlnumAscii(c: char) {
    IsDigit(c) || 'a' <= c <= 'z' || 'A' <= c <= 'Z'
  }

  function FilterChars(s: string, keep: char -> bool): (r: string)
    ensures forall c :: c in r <==> c in s && keep(c)
  {
    if s == [] then []
    else
      assert s == [s[0]] + s[1..];
      (if keep(s[0]) then [s[0]] else []) + FilterChars(s[1..], keep)
  }

  /** `normalize`: trimmed, lowered, only ASCII letters, digits and '-'. */
  function Normalize(value: string): (r: string)
    ensures AllAscii(r)
  {
    FilterChars(Lower(Trim(value)), c => IsAlnumAscii(c) || c == '-')
  }

  predicate IsEmptyMaterial(material: string) {
    var n := Normalize(material);
    (forall c | c in n :: c == '-') || n == "yoq" || n == "yuq"
  }

  function TrimAll(parts: seq<string>): seq<string> {
    if parts == [] then []
    else
      var head := Trim(parts[0]);
      (if head == [] then [] else [head]) + TrimAll(parts[1..])
  }

  /** `split_parts`: the non-blank parts between slashes. */
  function SplitParts(value: string): seq<string> {
    TrimAll(Split(value, '/'))
  }

  /** `str::parse::<u32>`. */
  function ParseU32(s: string): Option<nat> {
    var digits := if s != [] && s[0] == '+' then s[1..] else s;
    if digits != [] && AllDigits(digits) && DigitsValue(digits) <= 0xFFFF_FFFF then Some(DigitsValue(digits)) else None
  }

  function ParseAll(parts: seq<string>, whole: string): Result<seq<nat>> {
    if parts == [] then Ok([])
    else
      match ParseU32(Trim(parts[0])) {
        case None => Err(BadMicron(whole))
        case Some(m) =>
          match ParseAll(parts[1..], whole) {
            case Err(e) => Err(e)
            case Ok(rest) => Ok([m] + rest)
          }
      }
  }

  function ParseMicronParts(value: string): Result<seq<nat>> {
    var text := Trim(value);
    if text == [] || text == "--" then Err(BadMicron(text)) else ParseAll(Split(text, '/'), text)
  }

  function Max(ms: seq<nat>): (m: nat)
    requires ms != []
    ensures m in ms && forall x | x in ms :: x <= m
  {
    assert ms == [ms[0]] + ms[1..];
    if |ms| == 1 then ms[0]
    else
      var rest := Max(ms[1..]);
      if ms[0] >= rest then ms[0] else rest
  }

  function ParseMicron(value: string): Result<nat> {
    match ParseMicronParts(value)
    case Err(e) => Err(e)
    case Ok(ms) => if ms == [] then Err(BadMicron(value)) else Ok(Max(ms))
  }

  function RequireText(value: string, name: string): Result<string> {
    if Trim(value) == [] then Err(NotFilled(name)) else Ok(Trim(value))
  }

  function RequireNumber(value: Option<real>, name: string): Result<real> {
    match value { case None => Err(NotFilled(name)) case Some(v) => Ok(v) }
  }

  // --------------------------------------------------------------- coefficients

  datatype Family = First | McpCpp | Jem | Pe | Twist | Empty

  function MaterialFamily(material: string): Result<Family> {
    var n := Normalize(material);
    if n == [] || n == "--" || n == "-" || n == "yoq" || n == "yuq" then Ok(Empty)
    else if Contains(n, "twis") || Contains(n, "tuisim") then Ok(Twist)
    else if "pet" <= n || "mpet" <= n || Close(n, "pet") then Ok(First)
    else if "opp" <= n || "popp" <= n || n == "st01" || Close(n, "opp") then Ok(First)
    else if n == "map" || n == "mcpp" || n == "msr" || n == "msp" then Ok(McpCpp)
    else if "mat" <= n || "pff" <= n || "pf" <= n || Close(n, "mat") then Ok(First)
    else if "pe" <= n || Close(n, "pe") then Ok(Pe)
    else if "cpp" <= n || "mcp" <= n || Close(n, "cpp") || Close(n, "mcp") then Ok(McpCpp)
    else if "jem" <= n || Close(n, "jem") then Ok(Jem)
    else Err(UnknownMaterial(material))
  }

  function CoefficientSingle(material: string, micron: nat, isFirst: bool): Result<real> {
    match MaterialFamily(material)
    case Err(e) => Err(e)
    case Ok(family) =>
      TablesAscend();
      if isFirst && family != Empty && family != Twist && micron <= 20 then Ok(1.0)
      else if family == First && micron <= 20 then Ok(1.0)
      else
        match family
        case First => Ok(Curve(MCP_CPP, micron))
        case McpCpp => Ok(Curve(MCP_CPP, micron))
        case Jem => Ok(Curve(JEM, micron))
        case Pe => Ok(Curve(PE, micron))
        case Twist => Ok(2.0)
        case Empty => Err(NoCoefficient(material, micron))
  }

  function Single(isFirst: bool): (string, nat) -> Result<real> {
    (material: string, micron: nat) => CoefficientSingle(material, micron, isFirst)
  }

  /** The sum over pairs of a material and its micron; the first error stands. */
  function SumBy(single: (string, nat) -> Result<real>, materials: seq<string>, microns: seq<nat>): Result<real>
    requires |materials| == |microns|
  {
    if materials == [] then Ok(0.0)
    else
      match single(materials[0], microns[0]) {
        case Err(e) => Err(e)
        case Ok(c) =>
          match SumBy(single, materials[1..], microns[1..]) {
            case Err(e) => Err(e)
            case Ok(rest) => Ok(c + rest)
          }
      }
  }

  function SumCoefficients(materials: seq<string>, microns: seq<nat>, isFirst: bool): Result<real>
    requires |materials| == |microns|
  {
    SumBy(Single(isFirst), materials, microns)
  }

  function CoefficientCell(material: string, micronText: string, micron: nat, isFirst: bool): Result<real> {
    var materials := SplitParts(material);
    match ParseMicronParts(micronText)
    case Err(e) => Err(e)
    case Ok(microns) =>
      if |materials| == 1 then CoefficientSingle(materials[0], micron, isFirst)
      else if |materials| != |microns| then Err(LayersDiffer(material, micronText))
      else SumCoefficients(materials, microns, isFirst)
  }

  /** `merge_layers`: the second and third layer as one. */
  function MergeLayers(second: Layer, third: Layer): Result<Layer> {
    if IsEmptyMaterial(second.material) then
      if IsEmptyMaterial(third.material) then Ok(Layer("--", "--")) else Ok(third)
    else if IsEmptyMaterial(third.material) then Ok(second)
    else if Trim(third.micron) == [] then Err(ThirdMicronMissing)
    else Ok(Layer(second.material + "/" + third.material, second.micron + "/" + third.micron))
  }

  function MicronOrZero(layer: Layer): Result<nat> {
    if IsEmptyMaterial(layer.material) then Ok(0) else ParseMicron(layer.micron)
  }

  function CellOrZero(layer: Layer, micron: nat, isFirst: bool): Result<real> {
    if IsEmptyMaterial(layer.material) then Ok(0.0) else CoefficientCell(layer.material, layer.micron, micron, isFirst)
  }

  /** The coefficients of the first layer and of the others: the part of `calculate_single` that
      reads only the layers. */
  function LayerCoefficients(first: Layer, second: Layer, third: Layer): (r: Result<(real, real)>)
    ensures r.Ok? ==> r.value.0 + r.value.1 > 0.0
  {
    match RequireText(first.material, "1-qavat")
    case Err(e) => Err(e)
    case Ok(q1) =>
      match RequireText(first.micron, "1-mikron") {
        case Err(e) => Err(e)
        case Ok(m1) =>
          var named := if Trim(second.micron) == [] then second.(micron := "--") else second;
          match MergeLayers(named, third) {
            case Err(e) => Err(e)
            case Ok(other) => CoefficientPair(Layer(q1, m1), other)
          }
      }
  }

  function CoefficientPair(first: Layer, other: Layer): (r: Result<(real, real)>)
    ensures r.Ok? ==> r.value.0 + r.value.1 > 0.0
  {
    match (MicronOrZero(first), MicronOrZero(other))
    case (Err(e), _) => Err(e)
    case (Ok(_), Err(e)) => Err(e)
    case (Ok(firstMicron), Ok(otherMicron)) =>
      match (CellOrZero(first, firstMicron, true), CellOrZero(other, otherMicron, false)) {
        case (Err(e), _) => Err(e)
        case (Ok(_), Err(e)) => Err(e)
        case (Ok(a), Ok(b)) => if a + b <= 0.0 then Err(NoLayer) else Ok((a, b))
      }
  }

  const DEFAULT_WASTE := 5.0
  const LENGTH_STEP := 500.0

  function Waste(request: Request): real {
    match request.wastePercent { case None => DEFAULT_WASTE case Some(w) => w }
  }

  function BaseLength(kg: real, coeffSum: real, widthSm: real): real
    requires coeffSum * widthSm != 0.0
  {
    kg / (coeffSum * widthSm) * 6000.0
  }

  function WasteLength(base: real, waste: real): real {
    base * waste / 100.0
  }

  function Rounded(base: real, wasted: real): real {
    RoundUp(base + wasted, LENGTH_STEP)
  }

  /** What the numbers of a calculation have to do with each other: the film of base length and width
      weighs what is ordered, `waste` percent more are run, and the run is rounded up to whole 500. */
  ghost predicate Weighs(c: Calculation, kg: real, widthMm: real, waste: real) {
    && c.widthSm * 10.0 == widthMm && c.coeffSum == c.firstCoeff + c.otherCoeff
    && c.baseLength * c.coeffSum * c.widthSm == kg * 6000.0
    && c.wasteLength * 100.0 == c.baseLength * waste
    && LeastMultipleAbove(c.roundedLength, c.baseLength + c.wasteLength, 500.0)
  }

  lemma BaseWeighs(kg: real, sum: real, widthSm: real)
    requires sum * widthSm != 0.0
    ensures BaseLength(kg, sum, widthSm) * sum * widthSm == kg * 6000.0
  {
    var p := sum * widthSm;
    var q := kg / p;
    assert q * p == kg;
    assert BaseLength(kg, sum, widthSm) * sum * widthSm == q * 6000.0 * p;
  }

  /** The lengths, once the coefficients are known. */
  function Lengths(kg: real, widthMm: real, coeff: (real, real), waste: real): (c: Calculation)
    requires widthMm > 0.0 && coeff.0 + coeff.1 > 0.0
    ensures (c.firstCoeff, c.otherCoeff) == coeff && Weighs(c, kg, widthMm, waste)
  {
    var sum, widthSm := coeff.0 + coeff.1, widthMm / 10.0;
    ProductPositive(sum, widthSm);
    var base := BaseLength(kg, sum, widthSm);
    var wasted := WasteLength(base, waste);
    BaseWeighs(kg, sum, widthSm);
    RoundUpIsLeast(base + wasted, LENGTH_STEP);
    Calculation(coeff.0, coeff.1, sum, widthSm, base, wasted, Rounded(base, wasted))
  }

  predicate WidthAllowed(request: Request) {
    request.widthMm.Some? ==> request.widthMm.value > 0.0
  }

  /** `calculate_single`; the caller has refused widths that are not positive. With a result the film
      weighs what is ordered, waste is five percent when none is given, and the rounded length is the
      least multiple of 500 not below base plus waste. */
  function CalculateSingle(request: Request): (r: Result<Calculation>)
    requires WidthAllowed(request)
    ensures request.kg.None? ==> r == Err(NotFilled("KG"))
    ensures request.kg.Some? && request.widthMm.None? ==> r == Err(NotFilled("RAZMER"))
    ensures r.Ok? ==>
              && request.kg.Some? && request.widthMm.Some?
              && var waste := if request.wastePercent.Some? then request.wastePercent.value else 5.0;
                 waste >= 0.0 && Weighs(r.value, request.kg.value, request.widthMm.value, waste)
    ensures r.Ok? ==> LayerCoefficients(request.first, request.second, request.third)
                      == Ok((r.value.firstCoeff, r.value.otherCoeff))
  {
    match RequireNumber(request.kg, "KG")
    case Err(e) => Err(e)
    case Ok(kg) =>
      match RequireNumber(request.widthMm, "RAZMER") {
        case Err(e) => Err(e)
        case Ok(widthMm) =>
          match LayerCoefficients(request.first, request.second, request.third) {
            case Err(e) => Err(e)
            case Ok(coeff) =>
              if Waste(request) < 0.0 then Err(BadWaste) else Ok(Lengths(kg, widthMm, coeff, Waste(request)))
          }
      }
  }

  lemma ProductPositive(a: real, b: real)
    requires a > 0.0 && b > 0.0
    ensures a * b > 0.0
  {
  }

  // ------------------------------------------------------------------- variants

  function SplitOn(s: string, sep: string, from: nat): seq<string>
    requires sep != [] && from <= |s|
    decreases |s|, |s| - from
  {
    if from + |sep| > |s| then [s]
    else if OccursAt(s, sep, from) then [s[..from]] + SplitOn(s[from + |sep|..], sep, 0)
    else SplitOn(s, sep, from + 1)
  }

  predicate SlashMatchesMicrons(count: nat, micronText: string) {
    var microns := ParseMicronParts(micronText);
    microns.Ok? && |microns.value| == count
  }

  function SlashAlternatives(value: string, micronText: string): seq<string> {
    var parts := SplitParts(value);
    if |parts| <= 1 || SlashMatchesMicrons(|parts|, micronText) then [value] else parts
  }

  function FlatSlash(parts: seq<string>, micronText: string): seq<string> {
    if parts == [] then [] else SlashAlternatives(parts[0], micronText) + FlatSlash(parts[1..], micronText)
  }

  /** `alternatives`: the materials named by one layer, split at "yoki" and at free slashes. */
  function Alternatives(layer: Layer): (r: seq<string>)
    ensures r != []
  {
    var parts := FlatSlash(TrimAll(SplitOn(layer.material, "yoki", 0)), layer.micron);
    if parts == [] then [layer.material] else parts
  }

  function WithMaterials(request: Request, a: string, b: string, c: string): Request {
    request.(first := request.first.(material := a),
             second := request.second.(material := b),
             third := request.third.(material := c))
  }

  /** One request per third material. */
  function ThirdRuns(request: Request, a: string, b: string, cs: seq<string>): seq<Request> {
    if cs == [] then [] else ThirdRuns(request, a, b, cs[..|cs| - 1]) + [WithMaterials(request, a, b, cs[|cs| - 1])]
  }

  function SecondRuns(request: Request, a: string, bs: seq<string>, cs: seq<string>): seq<Request> {
    if bs == [] then [] else SecondRuns(request, a, bs[..|bs| - 1], cs) + ThirdRuns(request, a, bs[|bs| - 1], cs)
  }

  function FirstRuns(request: Request, as_: seq<string>, bs: seq<string>, cs: seq<string>): seq<Request> {
    if as_ == [] then []
    else FirstRuns(request, as_[..|as_| - 1], bs, cs) + SecondRuns(request, as_[|as_| - 1], bs, cs)
  }

  /** One request per combination of alternatives, the third layer varying fastest. */
  function Variants(request: Request): seq<Request> {
    FirstRuns(request, Alternatives(request.first), Alternatives(request.second), Alternatives(request.third))
  }

  lemma ThirdNext(done: seq<Request>, request: Request, a: string, b: string, cs: seq<string>, k: nat)
    requires k < |cs|
    ensures done + ThirdRuns(request, a, b, cs[..k + 1])
         == (done + ThirdRuns(request, a, b, cs[..k])) + [WithMaterials(request, a, b, cs[k])]
  {
    assert cs[..k + 1][..k] == cs[..k];
  }

  lemma SecondNext(done: seq<Request>, request: Request, a: string, bs: seq<string>, cs: seq<string>, j: nat)
    requires j < |bs|
    ensures done + SecondRuns(request, a, bs[..j + 1], cs)
         == (done + SecondRuns(request, a, bs[..j], cs)) + ThirdRuns(request, a, bs[j], cs)
  {
    assert bs[..j + 1][..j] == bs[..j];
  }

  lemma FirstNext(request: Request, as_: seq<string>, bs: seq<string>, cs: seq<string>, i: nat)
    requires i < |as_|
    ensures FirstRuns(request, as_[..i + 1], bs, cs)
         == FirstRuns(request, as_[..i], bs, cs) + SecondRuns(request, as_[i], bs, cs)
  {
    assert as_[..i + 1][..i] == as_[..i];
  }

  /** The three nested loops of `request_variants`. */
  method Combine(request: Request, a: seq<string>, b: seq<string>, c: seq<string>) returns (variants: seq<Request>)
    ensures variants == FirstRuns(request, a, b, c)
  {
    variants := [];
    for i := 0 to |a|
      invariant variants == FirstRuns(request, a[..i], b, c)
    {
      ghost var before := variants;
      for j := 0 to |b|
        invariant variants == before + SecondRuns(request, a[i], b[..j], c)
      {
        ghost var row := variants;
        for k := 0 to |c|
          invariant variants == row + ThirdRuns(request, a[i], b[j], c[..k])
        {
          ThirdNext(row, request, a[i], b[j], c, k);
          variants := variants + [WithMaterials(request, a[i], b[j], c[k])];
        }
        assert c[..|c|] == c;
        SecondNext(before, request, a[i], b, c, j);
      }
      assert b[..|b|] == b;
      FirstNext(request, a, b, c, i);
    }
    assert a[..|a|] == a;
  }

  method RequestVariants(request: Request) returns (variants: seq<Request>)
    ensures variants == Variants(request)
  {
    var a, b, c := Alternatives(request.first), Alternatives(request.second), Alternatives(request.third);
    variants := Combine(request, a, b, c);
  }

  lemma {:induction false} ThirdRunsAre(request: Request, a: string, b: string, cs: seq<string>, r: Request)
    ensures r in ThirdRuns(request, a, b, cs) <==> exists c :: c in cs && r == WithMaterials(request, a, b, c)
  {
    if cs != [] {
      ThirdRunsAre(request, a, b, cs[..|cs| - 1], r);
      assert cs == cs[..|cs| - 1] + [cs[|cs| - 1]];
    }
  }

  lemma SecondRunsNext(request: Request, a: string, init: seq<string>, last: string, cs: seq<string>, r: Request)
    ensures r in SecondRuns(request, a, init + [last], cs)
       <==> r in SecondRuns(request, a, init, cs) || r in ThirdRuns(request, a, last, cs)
  {
    assert (init + [last])[..|init|] == init;
  }

  lemma PairedNext(r: Request, request: Request, a: string, init: seq<string>, last: string, cs: seq<string>)
    ensures PairedWith(r, request, a, init + [last], cs)
       <==> PairedWith(r, request, a, init, cs) || (exists c :: c in cs && r == WithMaterials(request, a, last, c))
  {
  }

  lemma {:induction false} SecondRunsAre(request: Request, a: string, bs: seq<string>, cs: seq<string>, r: Request)
    ensures r in SecondRuns(request, a, bs, cs) <==> PairedWith(r, request, a, bs, cs)
  {
    if bs != [] {
      var init, last := bs[..|bs| - 1], bs[|bs| - 1];
      SecondRunsAre(request, a, init, cs, r);
      ThirdRunsAre(request, a, last, cs, r);
      assert bs == init + [last];
      SecondRunsNext(request, a, init, last, cs, r);
      PairedNext(r, request, a, init, last, cs);
    }
  }

  lemma {:induction false} ThirdRunsSize(request: Request, a: string, b: string, cs: seq<string>)
    ensures |ThirdRuns(request, a, b, cs)| == |cs|
  {
    if cs != [] { ThirdRunsSize(request, a, b, cs[..|cs| - 1]); }
  }

  lemma {:induction false} SecondRunsSize(request: Request, a: string, bs: seq<string>, cs: seq<string>)
    ensures |SecondRuns(request, a, bs, cs)| == |bs| * |cs|
  {
    if bs != [] {
      var init, last := bs[..|bs| - 1], bs[|bs| - 1];
      SecondRunsSize(request, a, init, cs);
      ThirdRunsSize(request, a, last, cs);
      OneMore(|init|, |cs|);
    }
  }

  lemma {:induction false} FirstRunsSize(request: Request, as_: seq<string>, bs: seq<string>, cs: seq<string>)
    ensures |FirstRuns(request, as_, bs, cs)| == |as_| * (|bs| * |cs|)
  {
    if as_ != [] {
      var init, last := as_[..|as_| - 1], as_[|as_| - 1];
      FirstRunsSize(request, init, bs, cs);
      SecondRunsSize(request, last, bs, cs);
      OneMore(|init|, |bs| * |cs|);
    }
  }

  lemma OneMore(n: nat, c: nat)
    ensures (n + 1) * c == n * c + c
  {
  }

  ghost predicate Combination(r: Request, request: Request, as_: seq<string>, bs: seq<string>, cs: seq<string>) {
    exists a, b, c :: a in as_ && b in bs && c in cs && r == WithMaterials(request, a, b, c)
  }

  ghost predicate PairedWith(r: Request, request: Request, a: string, bs: seq<string>, cs: seq<string>) {
    exists b, c :: b in bs && c in cs && r == WithMaterials(request, a, b, c)
  }

  lemma CombinationNext(r: Request, request: Request, init: seq<string>, last: string, bs: seq<string>, cs: seq<string>)
    ensures Combination(r, request, init + [last], bs, cs)
       <==> Combination(r, request, init, bs, cs) || PairedWith(r, request, last, bs, cs)
  {
  }

  lemma FirstRunsNext(request: Request, init: seq<string>, last: string, bs: seq<string>, cs: seq<string>, r: Request)
    ensures r in FirstRuns(request, init + [last], bs, cs)
       <==> r in FirstRuns(request, init, bs, cs) || r in SecondRuns(request, last, bs, cs)
  {
    assert (init + [last])[..|init|] == init;
  }

  lemma {:induction false} FirstRunsAre(request: Request, as_: seq<string>, bs: seq<string>, cs: seq<string>,
                                        r: Request)
    ensures r in FirstRuns(request, as_, bs, cs) <==> Combination(r, request, as_, bs, cs)
  {
    if as_ != [] {
      var init, last := as_[..|as_| - 1], as_[|as_| - 1];
      assert as_ == init + [last];
      FirstRunsAre(request, init, bs, cs, r);
      SecondRunsAre(request, last, bs, cs, r);
      FirstRunsNext(request, init, last, bs, cs, r);
      CombinationNext(r, request, init, last, bs, cs);
    }
  }

  /** The variants are exactly the combinations, each tried once for every way to pick it, and
      there is always at least one. */
  lemma VariantsCoverProduct(request: Request)
    ensures var a, b, c := Alternatives(request.first), Alternatives(request.second), Alternatives(request.third);
            && |Variants(request)| == |a| * (|b| * |c|) > 0
            && forall r :: r in Variants(request) <==> Combination(r, request, a, b, c)
  {
    var a, b, c := Alternatives(request.first), Alternatives(request.second), Alternatives(request.third);
    FirstRunsSize(request, a, b, c);
    PositiveProduct(|a|, |b|, |c|);
    forall r ensures r in Variants(request) <==> Combination(r, request, a, b, c) {
      FirstRunsAre(request, a, b, c, r);
    }
  }

  lemma PositiveProduct(a: nat, b: nat, c: nat)
    requires a > 0 && b > 0 && c > 0
    ensures a * (b * c) > 0
  {
    assert b * c > 0;
  }

  /** Variants differ in the materials only. */
  lemma VariantsKeepNumbers(request: Request, r: Request)
    requires r in Variants(request)
    ensures r.kg == request.kg && r.widthMm == request.widthMm && r.wastePercent == request.wastePercent
  {
    VariantsCoverProduct(request);
  }

  // ----------------------------------------------------------------- calculation

  /** The outcome of trying a list of requests: the first error, or every result. */
  function TryAll(requests: seq<Request>): Result<seq<Calculation>>
    requires forall i | 0 <= i < |requests| :: WidthAllowed(requests[i])
  {
    if requests == [] then Ok([])
    else
      var last := |requests| - 1;
      match TryAll(requests[..last]) {
        case Err(e) => Err(e)
        case Ok(done) =>
          match CalculateSingle(requests[last]) {
            case Err(e) => Err(e)
            case Ok(c) => Ok(done + [c])
          }
      }
  }

  method TryRequests(requests: seq<Request>) returns (results: Result<seq<Calculation>>)
    requires forall i | 0 <= i < |requests| :: WidthAllowed(requests[i])
    ensures results == TryAll(requests)
    ensures results.Ok? ==> |results.value| == |requests|
  {
    var done: seq<Calculation> := [];
    for i := 0 to |requests|
      invariant TryAll(requests[..i]) == Ok(done) && |done| == i
    {
      assert requests[..i + 1][..i] == requests[..i];
      var next := CalculateSingle(requests[i]);
      if next.Err? {
        TryAllStops(requests, i + 1);
        return Err(next.error);
      }
      done := done + [next.value];
    }
    assert requests[..|requests|] == requests;
    return Ok(done);
  }

  /** `calculate_variants`: the error for an empty list of variants is never reached. */
  method CalculateVariants(request: Request) returns (results: Result<seq<Calculation>>)
    requires WidthAllowed(request)
    ensures AllVariantsAllowed(request)
    ensures results == TryAll(Variants(request))
    ensures results.Ok? ==> results.value != []
  {
    VariantsAllowed(request);
    var variants := RequestVariants(request);
    results := TryRequests(variants);
    VariantsCoverProduct(request);
    if results.Ok? && results.value == [] { results := Err(NoVariant); }
  }

  predicate AllVariantsAllowed(request: Request) {
    forall i | 0 <= i < |Variants(request)| :: WidthAllowed(Variants(request)[i])
  }

  lemma VariantsAllowed(request: Request)
    requires WidthAllowed(request)
    ensures AllVariantsAllowed(request)
  {
    forall i | 0 <= i < |Variants(request)| ensures WidthAllowed(Variants(request)[i]) {
      VariantsKeepNumbers(request, Variants(request)[i]);
    }
  }

  lemma {:induction false} TryAllStops(requests: seq<Request>, n: nat)
    requires forall i | 0 <= i < |requests| :: WidthAllowed(requests[i])
    requires n <= |requests| && TryAll(requests[..n]).Err?
    ensures TryAll(requests) == TryAll(requests[..n])
    decreases |requests|
  {
    if n == |requests| {
      assert requests[..n] == requests;
    } else {
      var init := requests[..|requests| - 1];
      assert init[..n] == requests[..n];
      TryAllStops(init, n);
    }
  }

  /** `calculate`, from the checks on: the display fields only pass through. */
  function Calculate(request: Request): (r: Result<seq<Calculation>>)
    ensures request.kg.None? ==> r == Err(NotFilled("KG"))
    ensures request.kg.Some? && request.widthMm.None? ==> r == Err(NotFilled("RAZMER"))
    ensures request.kg.Some? && request.widthMm.Some? && request.kg.value <= 0.0 ==> r == Err(BadKg)
    ensures request.kg.Some? && request.widthMm.Some? && request.kg.value > 0.0 && request.widthMm.value <= 0.0 ==>
              r == Err(BadWidth)
    ensures r.Ok? ==> request.wastePercent.Some? ==> request.wastePercent.value >= 0.0
  {
    match RequireNumber(request.kg, "KG")
    case Err(e) => Err(e)
    case Ok(kg) =>
      match RequireNumber(request.widthMm, "RAZMER") {
        case Err(e) => Err(e)
        case Ok(widthMm) =>
          if kg <= 0.0 then Err(BadKg)
          else if widthMm <= 0.0 then Err(BadWidth)
          else if Waste(request) < 0.0 then Err(BadWaste)
          else
            VariantsAllowed(request);
            TryAll(Variants(request))
      }
  }

  /** `rubber_size`: the width in steps of 50, at least 50 and at most 1300. */
  function RubberSize(widthMm: real): nat {
    var steps := Ceil(widthMm / 50.0);
    var size := (if steps < 0 then 0 else steps) * 50;
    if size < 50 then 50 else if size > 1300 then 1300 else size
  }

  // --------------------------------------------------------------- main results

  predicate SameLayers(a: Request, b: Request) {
    a.first == b.first && a.second == b.second && a.third == b.third
  }

  /** At least as much film: no less weight, no less waste, no more width. */
  predicate AtLeastAsMuch(a: Request, b: Request) {
    && a.kg.Some? && b.kg.Some? && 0.0 < a.kg.value <= b.kg.value
    && a.widthMm.Some? && b.widthMm.Some? && 0.0 < b.widthMm.value <= a.widthMm.value
    && 0.0 <= Waste(a) <= Waste(b)
  }

  lemma DivideMono(x: real, y: real, c: real, d: real)
    requires 0.0 < x <= y && 0.0 < d <= c
    ensures 0.0 < x / c <= y / d
  {
    assert x / c * c == x && y / d * d == y;
    var p, q := x / c, y / d;
    assert p > 0.0;
    assert p * d <= p * c <= q * d;
    if p > q { Steeper(d, q, p); }
  }

  lemma BaseLengthMono(k1: real, k2: real, sum: real, w1: real, w2: real)
    requires 0.0 < k1 <= k2 && 0.0 < w2 <= w1 && sum > 0.0
    ensures sum * w1 > 0.0 && sum * w2 > 0.0
    ensures 0.0 < BaseLength(k1, sum, w1) <= BaseLength(k2, sum, w2)
  {
    ProductPositive(sum, w1);
    ProductPositive(sum, w2);
    MultiplyLe(w2, w1, sum);
    DivideMono(k1, k2, sum * w1, sum * w2);
  }

  lemma ScaledMono(b1: real, b2: real, p1: real, p2: real)
    requires 0.0 < b1 <= b2 && 0.0 <= p1 <= p2
    ensures WasteLength(b1, p1) <= WasteLength(b2, p2)
  {
    var x, y, z := b1 * p1, b1 * p2, b2 * p2;
    MultiplyLe(p1, p2, b1);
    MultiplyLe(b1, b2, p2);
    assert x == p1 * b1 && y == p2 * b1;
    assert x <= z;
    assert x / 100.0 <= z / 100.0;
  }

  lemma WastedMono(b1: real, b2: real, p1: real, p2: real)
    requires 0.0 < b1 <= b2 && 0.0 <= p1 <= p2
    ensures Rounded(b1, WasteLength(b1, p1)) <= Rounded(b2, WasteLength(b2, p2))
  {
    ScaledMono(b1, b2, p1, p2);
    RoundUpMonotone(b1 + WasteLength(b1, p1), b2 + WasteLength(b2, p2), LENGTH_STEP);
  }

  lemma LengthsMonotone(k1: real, k2: real, w1: real, w2: real, coeff: (real, real), p1: real, p2: real)
    requires 0.0 < k1 <= k2 && 0.0 < w2 <= w1 && coeff.0 + coeff.1 > 0.0 && 0.0 <= p1 <= p2
    ensures Lengths(k1, w1, coeff, p1).roundedLength <= Lengths(k2, w2, coeff, p2).roundedLength
  {
    var sum := coeff.0 + coeff.1;
    BaseLengthMono(k1, k2, sum, w1 / 10.0, w2 / 10.0);
    WastedMono(BaseLength(k1, sum, w1 / 10.0), BaseLength(k2, sum, w2 / 10.0), p1, p2);
  }

  /** With the same layers both requests succeed or fail alike, and more weight, more waste or less
      width never shortens the rounded length. */
  lemma RoundedLengthMonotone(a: Request, b: Request)
    requires SameLayers(a, b) && AtLeastAsMuch(a, b)
    ensures CalculateSingle(a).Err? || CalculateSingle(b).Err? ==> CalculateSingle(a) == CalculateSingle(b)
    ensures CalculateSingle(a).Ok? ==> CalculateSingle(a).value.roundedLength <= CalculateSingle(b).value.roundedLength
  {
    var coeff := LayerCoefficients(a.first, a.second, a.third);
    if coeff.Ok? {
      LengthsMonotone(a.kg.value, b.kg.value, a.widthMm.value, b.widthMm.value, coeff.value, Waste(a), Waste(b));
    }
  }
}
