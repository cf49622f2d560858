/** The material shares of a bill of materials (src/erpnext/production_order.rs). */
module BomShares {
  import opened Text
  import opened Decimals
  import opened Sequences
  import F = Formula
  import W = WorkOrders

  datatype BomLayer = BomLayer(layer: string, itemCode: string, micron: real, qty: real)

  /** `parse_micron_numbers`: the parts that read as numbers. */
  function MicronNumbers(parts: seq<string>): seq<real> {
    if parts == [] then []
    else
      match ParseFloat(Trim(parts[0])) {
        case Some(v) => [v] + MicronNumbers(parts[1..])
        case None => MicronNumbers(parts[1..])
      }
  }

  function Largest(microns: seq<real>): real {
    if microns == [] then 0.0
    else if |microns| == 1 then microns[0]
    else
      var rest := Largest(microns[1..]);
      if microns[0] >= rest then microns[0] else rest
  }

  function Zip(layer: string, materials: seq<string>, microns: seq<real>): (r: seq<BomLayer>)
    requires |materials| == |microns|
    ensures |r| == |materials|
  {
    seq(|materials|, i requires 0 <= i < |materials| => BomLayer(layer, materials[i], microns[i], 0.0))
  }

  /** `expand_bom_material_layer`. */
  function ExpandLayer(layer: string, input: F.Layer): (r: seq<BomLayer>)
    ensures r == [] <==> Trim(input.material) == []
  {
    var material := Trim(input.material);
    if material == [] then []
    else
      var materials := F.SplitParts(material);
      var microns := MicronNumbers(Split(Trim(input.micron), '/'));
      if |materials| > 1 && |microns| == |materials| then Zip(layer, materials, microns)
      else [BomLayer(layer, material, Largest(microns), 0.0)]
  }

  function ExpandedLayers(template: W.Template): seq<BomLayer> {
    ExpandLayer("1 qavat", template.first) + ExpandLayer("2 qavat", template.second)
    + ExpandLayer("3 qavat", template.third)
  }

  lemma MicronsCons(part: string, rest: seq<string>)
    ensures MicronNumbers([part] + rest)
         == (match ParseFloat(Trim(part)) case Some(v) => [v] case None => []) + MicronNumbers(rest)
  {
    hide ParseFloat, Trim;
    assert ([part] + rest)[1..] == rest;
  }

  /** Part by part: what reads as a number is kept, the rest is passed over. */
  lemma {:induction false} MicronsOfBoth(a: seq<string>, b: seq<string>)
    ensures MicronNumbers(a + b) == MicronNumbers(a) + MicronNumbers(b)
    ensures |a| == 1 ==>
              MicronNumbers(a) == match ParseFloat(Trim(a[0])) case Some(v) => [v] case None => []
  {
    hide ParseFloat, Trim;
    if a == [] {
      assert a + b == b;
    } else {
      var rest := a[1..];
      assert a == [a[0]] + rest && a + b == [a[0]] + (rest + b);
      MicronsCons(a[0], rest);
      MicronsCons(a[0], rest + b);
      MicronsOfBoth(rest, b);
    }
  }

  /** The largest of the numbers, 0 when there are none. */
  lemma {:induction false} LargestIs(microns: seq<real>)
    ensures microns == [] ==> Largest(microns) == 0.0
    ensures microns != [] ==> Largest(microns) in microns && forall m | m in microns :: m <= Largest(microns)
  {
    if |microns| > 1 {
      LargestIs(microns[1..]);
      forall m | m in microns ensures m <= Largest(microns) {
        assert m == microns[0] || m in microns[1..];
      }
    }
  }

  /** A layer of several materials with a micron for each is taken apart in order; any other is one
      material with the largest micron named. No quantity is given yet. */
  lemma ExpandLayerIs(layer: string, input: F.Layer)
    requires Trim(input.material) != ""
    ensures var r, parts := ExpandLayer(layer, input), F.SplitParts(Trim(input.material));
            var microns := MicronNumbers(Split(Trim(input.micron), '/'));
            if |parts| > 1 && |microns| == |parts| then
              |r| == |parts| && forall i | 0 <= i < |r| :: r[i] == BomLayer(layer, parts[i], microns[i], 0.0)
            else
              && r == [BomLayer(layer, Trim(input.material), r[0].micron, 0.0)]
              && (if microns == [] then r[0].micron == 0.0
                  else r[0].micron in microns && forall m | m in microns :: m <= r[0].micron)
  {
    LargestIs(MicronNumbers(Split(Trim(input.micron), '/')));
  }

  function Named(name: string): BomLayer -> bool {
    (l: BomLayer) => l.layer == name
  }

  lemma ExpandedUnderName(layer: string, input: F.Layer, name: string)
    ensures Filter(ExpandLayer(layer, input), Named(name)) == if layer == name then ExpandLayer(layer, input) else []
  {
    var r := ExpandLayer(layer, input);
    if Trim(input.material) != [] { ExpandLayerIs(layer, input); }
    assert forall l | l in r :: l.layer == layer;
    if layer == name {
      FilterAll(r, Named(name));
    } else {
      FilterNone(r, Named(name));
    }
  }

  /** The parts of each layer stand under that layer's own name, and no other names occur. */
  lemma LayersNamed(template: W.Template)
    ensures Filter(ExpandedLayers(template), Named("1 qavat")) == ExpandLayer("1 qavat", template.first)
    ensures Filter(ExpandedLayers(template), Named("2 qavat")) == ExpandLayer("2 qavat", template.second)
    ensures Filter(ExpandedLayers(template), Named("3 qavat")) == ExpandLayer("3 qavat", template.third)
    ensures |ExpandedLayers(template)|
         == |ExpandLayer("1 qavat", template.first)| + |ExpandLayer("2 qavat", template.second)|
            + |ExpandLayer("3 qavat", template.third)|
  {
    var a, b, c := "1 qavat", "2 qavat", "3 qavat";
    assert a[0] != b[0] && b[0] != c[0] && a[0] != c[0];
    NamedAmong(template, a, b, c, a);
    NamedAmong(template, a, b, c, b);
    NamedAmong(template, a, b, c, c);
  }

  lemma NamedAmong(template: W.Template, a: string, b: string, c: string, name: string)
    requires a != b && b != c && a != c
    ensures var first, second, third :=
              ExpandLayer(a, template.first), ExpandLayer(b, template.second), ExpandLayer(c, template.third);
            Filter(first + second + third, Named(name))
            == if name == a then first else if name == b then second else if name == c then third else []
  {
    hide *;
    var first, second, third :=
      ExpandLayer(a, template.first), ExpandLayer(b, template.second), ExpandLayer(c, template.third);
    FilterOfConcat(first + second, third, Named(name));
    FilterOfConcat(first, second, Named(name));
    ExpandedUnderName(a, template.first, name);
    ExpandedUnderName(b, template.second, name);
    ExpandedUnderName(c, template.third, name);
    assert first + [] + [] == first && [] + second + [] == second && [] + [] + third == third;
  }

  // ------------------------------------------------------------------------ sharing

  function MicronOf(): BomLayer -> real { (l: BomLayer) => l.micron }
  function PositivePart(): BomLayer -> real { (l: BomLayer) => if l.micron > 0.0 then l.micron else 0.0 }
  function QtyOf(): BomLayer -> real { (l: BomLayer) => l.qty }

  /** The sum of the positive microns. */
  function PositiveTotal(layers: seq<BomLayer>): (total: real)
    ensures total >= 0.0
  {
    PositiveSum(layers);
    Sum(layers, PositivePart())
  }

  lemma {:induction false} PositiveSum(layers: seq<BomLayer>)
    ensures Sum(layers, PositivePart()) >= 0.0
    ensures Sum(layers, PositivePart()) == 0.0 <==> forall i | 0 <= i < |layers| :: layers[i].micron <= 0.0
  {
    if layers != [] {
      PositiveSum(layers[..|layers| - 1]);
      assert forall i | 0 <= i < |layers| - 1 :: layers[..|layers| - 1][i] == layers[i];
    }
  }

  /** The share of one layer. */
  function Share(layer: BomLayer, positiveTotal: real, count: nat): real
    requires count > 0
  {
    if positiveTotal > 0.0 then layer.micron / positiveTotal else 1.0 / count as real
  }

  function Shared(layers: seq<BomLayer>): (r: seq<BomLayer>)
    ensures |r| == |layers|
  {
    var total := PositiveTotal(layers);
    seq(|layers|, i requires 0 <= i < |layers| => layers[i].(qty := Share(layers[i], total, |layers|)))
  }

  /** The quantities are rewritten in place. */
  method ShareOut(layers: array<BomLayer>)
    modifies layers
    ensures layers[..] == Shared(old(layers[..]))
  {
    ghost var was := layers[..];
    var positiveTotal := 0.0;
    for i := 0 to layers.Length
      invariant layers[..] == was
      invariant positiveTotal == Sum(was[..i], PositivePart())
    {
      assert was[..i + 1] == was[..i] + [was[i]];
      SumSnoc(was[..i], was[i], PositivePart());
      if layers[i].micron > 0.0 { positiveTotal := positiveTotal + layers[i].micron; }
    }
    assert was[..layers.Length] == was;
    if positiveTotal > 0.0 {
      for i := 0 to layers.Length
        invariant forall j | 0 <= j < i :: layers[j] == was[j].(qty := Share(was[j], positiveTotal, layers.Length))
        invariant forall j | i <= j < layers.Length :: layers[j] == was[j]
      {
        layers[i] := layers[i].(qty := layers[i].micron / positiveTotal);
      }
    } else if layers.Length > 0 {
      var equalQty := 1.0 / layers.Length as real;
      for i := 0 to layers.Length
        invariant forall j | 0 <= j < i :: layers[j] == was[j].(qty := Share(was[j], positiveTotal, layers.Length))
        invariant forall j | i <= j < layers.Length :: layers[j] == was[j]
      {
        layers[i] := layers[i].(qty := equalQty);
      }
    }
    assert layers[..] == Shared(was);
  }

  function BomMaterialLayers(template: W.Template): seq<BomLayer> {
    Shared(ExpandedLayers(template))
  }

  // ------------------------------------------------------------------ the shares

  /** Every share between 0 and 1, and all of them together 1. */
  predicate ProperShares(layers: seq<BomLayer>) {
    && (forall i | 0 <= i < |layers| :: 0.0 <= layers[i].qty <= 1.0)
    && Sum(layers, QtyOf()) == 1.0
  }

  lemma {:induction false} SumOfShares(layers: seq<BomLayer>, shared: seq<BomLayer>, total: real)
    requires total > 0.0 && |shared| == |layers|
    requires forall i | 0 <= i < |layers| :: shared[i].qty == layers[i].micron / total
    ensures Sum(shared, QtyOf()) * total == Sum(layers, MicronOf())
  {
    if layers != [] {
      var n := |layers| - 1;
      SumOfShares(layers[..n], shared[..n], total);
      var a, b := Sum(shared[..n], QtyOf()), shared[n].qty;
      assert b * total == layers[n].micron;
      assert (a + b) * total == a * total + b * total;
    }
  }

  lemma {:induction false} SumOfEqual(shared: seq<BomLayer>, q: real)
    requires forall i | 0 <= i < |shared| :: shared[i].qty == q
    ensures Sum(shared, QtyOf()) == |shared| as real * q
  {
    if shared != [] {
      var n := |shared| - 1;
      SumOfEqual(shared[..n], q);
      assert (n as real + 1.0) * q == n as real * q + q;
    }
  }

  lemma {:induction false} NonNegativeTotal(layers: seq<BomLayer>)
    requires forall i | 0 <= i < |layers| :: layers[i].micron >= 0.0
    ensures Sum(layers, MicronOf()) == Sum(layers, PositivePart())
    ensures forall i | 0 <= i < |layers| :: layers[i].micron <= Sum(layers, PositivePart())
  {
    if layers != [] {
      var init := layers[..|layers| - 1];
      assert forall i | 0 <= i < |init| :: init[i] == layers[i];
      NonNegativeTotal(init);
      PositiveSum(init);
    }
  }

  lemma Quotient(a: real, t: real)
    requires t > 0.0
    ensures 0.0 <= a / t <==> 0.0 <= a
    ensures a / t <= 1.0 <==> a <= t
  {
    var q := a / t;
    assert q * t == a;
    if q < 0.0 { assert q * t < 0.0; }
    if q > 1.0 { assert (q - 1.0) * t > 0.0; }
    if 0.0 <= q <= 1.0 { assert (1.0 - q) * t >= 0.0; }
  }

  lemma OnlyOne(s: real, t: real)
    requires t > 0.0 && s * t == t
    ensures s == 1.0
  {
    assert (s - 1.0) * t == 0.0;
  }

  lemma ShareAt(layers: seq<BomLayer>, i: nat)
    requires PositiveTotal(layers) > 0.0 && i < |layers|
    ensures Shared(layers)[i].qty == layers[i].micron / PositiveTotal(layers)
  {
  }

  lemma ShareBounded(layers: seq<BomLayer>, i: nat)
    requires PositiveTotal(layers) > 0.0 && i < |layers|
    requires 0.0 <= layers[i].micron <= PositiveTotal(layers)
    ensures 0.0 <= Shared(layers)[i].qty <= 1.0
  {
    ShareAt(layers, i);
    Quotient(layers[i].micron, PositiveTotal(layers));
  }

  lemma SharesSumToOne(layers: seq<BomLayer>, shared: seq<BomLayer>, total: real)
    requires total > 0.0 && |shared| == |layers| && Sum(layers, MicronOf()) == total
    requires forall i | 0 <= i < |layers| :: shared[i].qty == layers[i].micron / total
    ensures Sum(shared, QtyOf()) == 1.0
  {
    SumOfShares(layers, shared, total);
    OnlyOne(Sum(shared, QtyOf()), total);
  }

  lemma SharedByMicron(layers: seq<BomLayer>)
    requires PositiveTotal(layers) > 0.0 && forall i | 0 <= i < |layers| :: layers[i].micron >= 0.0
    ensures ProperShares(Shared(layers))
  {
    var total, shared := PositiveTotal(layers), Shared(layers);
    NonNegativeTotal(layers);
    forall i | 0 <= i < |shared| ensures shared[i].qty == layers[i].micron / total {
      ShareAt(layers, i);
    }
    forall i | 0 <= i < |shared| ensures 0.0 <= shared[i].qty <= 1.0 {
      ShareBounded(layers, i);
    }
    SharesSumToOne(layers, shared, total);
  }

  lemma SharedEqually(layers: seq<BomLayer>)
    requires layers != [] && PositiveTotal(layers) == 0.0
    ensures ProperShares(Shared(layers))
  {
    var n := |layers| as real;
    var q := 1.0 / n;
    SumOfEqual(Shared(layers), q);
    Quotient(1.0, n);
  }

  /** The shares are proper exactly when no micron is negative or none is positive. */
  lemma SharesAreProper(layers: seq<BomLayer>)
    requires layers != []
    ensures ProperShares(Shared(layers)) <==>
              || (forall i | 0 <= i < |layers| :: layers[i].micron >= 0.0)
              || (forall i | 0 <= i < |layers| :: layers[i].micron <= 0.0)
  {
    PositiveSum(layers);
    if PositiveTotal(layers) == 0.0 {
      SharedEqually(layers);
    } else if forall i | 0 <= i < |layers| :: layers[i].micron >= 0.0 {
      SharedByMicron(layers);
    } else {
      var i :| 0 <= i < |layers| && layers[i].micron < 0.0;
      Quotient(layers[i].micron, PositiveTotal(layers));
      assert Shared(layers)[i].qty < 0.0;
    }
  }

  /** A template that names a material and no negative micron has proper shares. */
  lemma TemplateShares(template: W.Template)
    requires Trim(template.first.material) != [] || Trim(template.second.material) != []
          || Trim(template.third.material) != []
    requires forall i | 0 <= i < |ExpandedLayers(template)| :: ExpandedLayers(template)[i].micron >= 0.0
    ensures ProperShares(BomMaterialLayers(template))
  {
    SharesAreProper(ExpandedLayers(template));
  }
}
