/** `interpolate`, `project` and `round_up` of src/core/formula.rs, over exact numbers. */
module Interpolation {
  import opened Text

  datatype Knot = Knot(micron: nat, value: real)

  const MCP_CPP := [
    Knot(20, 1.07), Knot(25, 1.3), Knot(30, 1.6), Knot(35, 2.0),
    Knot(40, 2.15), Knot(45, 2.7), Knot(50, 2.8), Knot(60, 3.2)]

  const JEM := [Knot(25, 1.0), Knot(30, 1.5)]

  const PE := [
    Knot(30, 2.0), Knot(35, 2.3), Knot(40, 2.6), Knot(45, 3.0), Knot(50, 3.3), Knot(55, 3.6), Knot(60, 4.0),
    Knot(65, 4.3), Knot(70, 4.6), Knot(75, 5.0), Knot(80, 5.3), Knot(85, 5.6), Knot(90, 6.0)]

  /** A coefficient table: thicker film, larger coefficient. */
  predicate Ascending(table: seq<Knot>) {
    forall i, j | 0 <= i < j < |table| :: table[i].micron < table[j].micron && table[i].value < table[j].value
  }

  /** The microns ascend; without this the source's unsigned subtraction would wrap. */
  predicate KnotsAscend(table: seq<Knot>) {
    forall i, j | 0 <= i < j < |table| :: table[i].micron < table[j].micron
  }

  lemma TablesAscend()
    ensures Ascending(MCP_CPP) && Ascending(JEM) && Ascending(PE)
  {
  }

  function Blend(left: Knot, right: Knot, ratio: real): real {
    left.value + (right.value - left.value) * ratio
  }

  /** `project`: the line through two knots. */
  function Project(micron: nat, left: Knot, right: Knot): real
    requires left.micron < right.micron
  {
    Blend(left, right, (micron as real - left.micron as real) / (right.micron - left.micron) as real)
  }

  /** The piece of the curve that `micron` falls on: the last knot, short of the final one, that is
      not above it. The first and the last piece go on past the ends of the table. */
  function Piece(table: seq<Knot>, micron: nat, upto: nat): (k: nat)
    requires upto + 1 < |table|
    ensures k <= upto
    ensures k == 0 || table[k].micron <= micron
    ensures forall j | k < j <= upto :: micron < table[j].micron
  {
    if upto == 0 || table[upto].micron <= micron then upto else Piece(table, micron, upto - 1)
  }

  /** The piecewise-linear curve through the knots, extended linearly past both ends. */
  function Curve(table: seq<Knot>, micron: nat): real
    requires |table| >= 2 && KnotsAscend(table)
  {
    var k := Piece(table, micron, |table| - 2);
    Project(micron, table[k], table[k + 1])
  }

  /** `interpolate`: below the table, then the windows from the left, then past the table. */
  method Interpolate(micron: nat, table: seq<Knot>) returns (value: Option<real>)
    requires KnotsAscend(table)
    ensures |table| < 2 ==> value == None
    ensures |table| >= 2 ==> value == Some(Curve(table, micron))
  {
    if |table| < 2 { return None; }
    if micron < table[0].micron {
      return Some(Project(micron, table[0], table[1]));
    }
    for w := 0 to |table| - 1
      invariant w > 0 ==> table[w].micron <= micron
    {
      var left, right := table[w], table[w + 1];
      if micron == left.micron {
        CurveThroughKnots(table, w);
        return Some(left.value);
      }
      if micron > left.micron && micron < right.micron {
        var ratio := (micron - left.micron) as real / (right.micron - left.micron) as real;
        assert Piece(table, micron, |table| - 2) == w;
        return Some(Blend(left, right, ratio));
      }
    }
    return Some(Project(micron, table[|table| - 2], table[|table| - 1]));
  }

  lemma ProjectAtEnds(left: Knot, right: Knot)
    requires left.micron < right.micron
    ensures Project(left.micron, left, right) == left.value
    ensures Project(right.micron, left, right) == right.value
  {
  }

  lemma Steeper(c: real, x: real, y: real)
    requires 0.0 < c && x < y
    ensures c * x < c * y
  {
  }

  lemma Divided(x: real, y: real, w: real)
    requires 0.0 < w && x < y
    ensures x / w < y / w
  {
    assert (y - x) / w > 0.0;
    assert y / w == x / w + (y - x) / w;
  }

  lemma ProjectIncreasing(a: nat, b: nat, left: Knot, right: Knot)
    requires left.micron < right.micron && left.value < right.value && a < b
    ensures Project(a, left, right) < Project(b, left, right)
  {
    var w := (right.micron - left.micron) as real;
    Divided(a as real - left.micron as real, b as real - left.micron as real, w);
    Steeper(right.value - left.value, (a as real - left.micron as real) / w, (b as real - left.micron as real) / w);
  }

  /** The curve passes through every knot, the last one included. */
  lemma CurveThroughKnots(table: seq<Knot>, k: nat)
    requires |table| >= 2 && KnotsAscend(table) && k < |table|
    ensures Curve(table, table[k].micron) == table[k].value
  {
    var p := Piece(table, table[k].micron, |table| - 2);
    assert if k < |table| - 1 then p == k else p == |table| - 2;
    ProjectAtEnds(table[p], table[p + 1]);
  }

  /** A value on the straight line through two knots. */
  predicate OnLine(left: Knot, right: Knot, micron: nat, value: real) {
    (value - left.value) * (right.micron - left.micron) as real
      == (right.value - left.value) * (micron - left.micron) as real
  }

  lemma ProjectOnLine(micron: nat, left: Knot, right: Knot)
    requires left.micron < right.micron
    ensures OnLine(left, right, micron, Project(micron, left, right))
  {
    var width, far := (right.micron - left.micron) as real, micron as real - left.micron as real;
    var ratio, rise := far / width, right.value - left.value;
    assert ratio * width == far;
    assert rise * ratio * width == rise * far;
  }

  /** Between two neighbouring knots the curve is the straight line joining them; below the first
      and above the last it is the line of the nearest piece. */
  lemma CurveIsLinear(table: seq<Knot>, micron: nat, k: nat)
    requires |table| >= 2 && KnotsAscend(table) && k + 1 < |table|
    requires k == 0 || table[k].micron <= micron
    requires k + 2 == |table| || micron <= table[k + 1].micron
    ensures Curve(table, micron) == Project(micron, table[k], table[k + 1])
    ensures OnLine(table[k], table[k + 1], micron, Curve(table, micron))
  {
    ProjectOnLine(micron, table[k], table[k + 1]);
    var p := Piece(table, micron, |table| - 2);
    if micron == table[k + 1].micron {
      ProjectAtEnds(table[k], table[k + 1]);
      CurveThroughKnots(table, k + 1);
    } else {
      assert p == k;
    }
  }

  /** A thicker film has a strictly larger coefficient. */
  lemma CurveIncreasing(table: seq<Knot>, a: nat, b: nat)
    requires |table| >= 2 && Ascending(table) && a < b
    ensures Curve(table, a) < Curve(table, b)
  {
    var n := |table| - 2;
    var p, q := Piece(table, a, n), Piece(table, b, n);
    if p == q {
      ProjectIncreasing(a, b, table[p], table[p + 1]);
    } else {
      assert p < q;
      assert a < table[p + 1].micron;
      ProjectIncreasing(a, table[p + 1].micron, table[p], table[p + 1]);
      ProjectAtEnds(table[p], table[p + 1]);
      assert table[p + 1].value <= table[q].value;
      ProjectAtEnds(table[q], table[q + 1]);
      if table[q].micron < b { ProjectIncreasing(table[q].micron, b, table[q], table[q + 1]); }
    }
  }

  // --------------------------------------------------------------------- rounding

  function Ceil(x: real): int {
    -((-x).Floor)
  }

  function Multiple(k: int, step: real): real {
    k as real * step
  }

  /** `round_up`. */
  function RoundUp(value: real, step: real): real
    requires step > 0.0
  {
    Ceil(value / step) as real * step
  }

  lemma MultiplyLe(x: real, y: real, c: real)
    requires x <= y && 0.0 <= c
    ensures x * c <= y * c
  {
  }

  lemma RoundUpBounds(value: real, step: real)
    requires step > 0.0
    ensures value <= RoundUp(value, step)
    ensures RoundUp(value, step) < value + step
  {
    var x := value / step;
    var c := Ceil(x) as real;
    assert x * step == value;
    assert x <= c && c - x < 1.0;
    MultiplyLe(x, c, step);
    var gap := c - x;
    Steeper(step, gap, 1.0);
    assert step * gap < step;
    assert c * step == (x + gap) * step == value + step * gap;
    var r := RoundUp(value, step);
    assert r == c * step;
    assert r == value + step * gap;
    assert r < value + step;
  }

  /** The least multiple of the step that is not below the value. */
  ghost predicate LeastMultipleAbove(r: real, value: real, step: real) {
    && (exists k :: r == Multiple(k, step))
    && value <= r
    && (forall k :: value <= Multiple(k, step) ==> r <= Multiple(k, step))
  }

  lemma RoundUpIsLeast(value: real, step: real)
    requires step > 0.0
    ensures LeastMultipleAbove(RoundUp(value, step), value, step)
  {
    RoundUpBounds(value, step);
    var x := value / step;
    var c := Ceil(x);
    assert x * step == value;
    assert RoundUp(value, step) == Multiple(c, step);
    forall k | value <= Multiple(k, step) ensures Multiple(c, step) <= Multiple(k, step) {
      NotBelow(k, x, step);
      MultiplyLe(c as real, k as real, step);
    }
  }

  lemma NotBelow(k: int, x: real, step: real)
    requires step > 0.0 && x * step <= Multiple(k, step)
    ensures x <= k as real && Ceil(x) <= k
  {
    if k as real < x { Steeper(step, k as real, x); }
  }

  lemma RoundUpMonotone(a: real, b: real, step: real)
    requires step > 0.0 && a <= b
    ensures RoundUp(a, step) <= RoundUp(b, step)
  {
    RoundUpIsLeast(a, step);
    RoundUpIsLeast(b, step);
  }
}
