/** `levenshtein` and `close` of src/core/formula.rs: one row of costs, overwritten in place,
    proved to hold the least number of single-character edits. */
module EditDistance {
  import opened Text

  // ------------------------------------------------ edit scripts: the meaning

  datatype Edit = Keep(c: char) | Replace(from: char, to: char) | Insert(c: char) | Delete(c: char)

  function Before(script: seq<Edit>): string {
    if script == [] then []
    else
      var rest := Before(script[..|script| - 1]);
      match script[|script| - 1]
      case Keep(c) => rest + [c]
      case Replace(c, _) => rest + [c]
      case Insert(_) => rest
      case Delete(c) => rest + [c]
  }

  function After(script: seq<Edit>): string {
    if script == [] then []
    else
      var rest := After(script[..|script| - 1]);
      match script[|script| - 1]
      case Keep(c) => rest + [c]
      case Replace(_, d) => rest + [d]
      case Insert(d) => rest + [d]
      case Delete(_) => rest
  }

  /** Insertions, deletions and substitutions; keeping a character is free. */
  function Cost(script: seq<Edit>): nat {
    if script == [] then 0
    else Cost(script[..|script| - 1]) + if script[|script| - 1].Keep? then 0 else 1
  }

  ghost predicate Rewrites(script: seq<Edit>, left: string, right: string) {
    Before(script) == left && After(script) == right
  }

  // ------------------------------------------------ the recurrence on prefixes

  function Init(s: string): string
    requires s != []
  {
    s[..|s| - 1]
  }

  function Last(s: string): char
    requires s != []
  {
    s[|s| - 1]
  }

  function Min(a: nat, b: nat): nat {
    if a <= b then a else b
  }

  /** What the cell of two prefixes holds: on equal last characters only the diagonal is taken. */
  function Distance(left: string, right: string): nat
    decreases |left| + |right|
  {
    if left == [] then |right|
    else if right == [] then |left|
    else if Last(left) == Last(right) then Distance(Init(left), Init(right))
    else
      1 + Min(Min(Distance(Init(left), Init(right)), Distance(Init(left), right)), Distance(left, Init(right)))
  }

  lemma {:induction false} DistanceSymmetric(left: string, right: string)
    ensures Distance(left, right) == Distance(right, left)
    decreases |left| + |right|
  {
    if left != [] && right != [] {
      DistanceSymmetric(Init(left), Init(right));
      DistanceSymmetric(Init(left), right);
      DistanceSymmetric(left, Init(right));
    }
  }

  /** One more character changes the distance by at most one; this is what makes it safe to
      ignore the two other neighbours when the characters agree. */
  lemma {:induction false} DistanceLipschitz(left: string, right: string)
    requires left != []
    ensures Distance(Init(left), right) <= 1 + Distance(left, right)
    ensures Distance(left, right) <= 1 + Distance(Init(left), right)
    decreases |left| + |right|
  {
    if right != [] {
      var l, r := Init(left), Init(right);
      DistanceLipschitz(left, r);
      DistanceSymmetric(l, right);
      DistanceSymmetric(l, r);
      DistanceLipschitz(right, l);
    }
  }

  /** No script is cheaper than the recurrence. */
  lemma {:induction false} NoCheaperScript(script: seq<Edit>)
    ensures Distance(Before(script), After(script)) <= Cost(script)
  {
    if script != [] {
      var rest := script[..|script| - 1];
      NoCheaperScript(rest);
      var left, right := Before(script), After(script);
      match script[|script| - 1] {
        case Keep(c) =>
          assert Init(left) == Before(rest) && Init(right) == After(rest);
        case Replace(c, d) =>
          assert Init(left) == Before(rest) && Init(right) == After(rest);
        case Insert(d) =>
          assert left == Before(rest) && Init(right) == After(rest);
          DistanceLipschitz(right, left);
          DistanceSymmetric(left, right);
          DistanceSymmetric(left, Init(right));
        case Delete(c) =>
          assert Init(left) == Before(rest) && right == After(rest);
          DistanceLipschitz(left, right);
      }
    }
  }

  lemma InsertAll(right: string) returns (script: seq<Edit>)
    ensures Rewrites(script, [], right) && Cost(script) == |right|
  {
    if right == [] {
      script := [];
    } else {
      var rest := InsertAll(Init(right));
      script := rest + [Insert(Last(right))];
      assert script[..|script| - 1] == rest;
    }
  }

  lemma DeleteAll(left: string) returns (script: seq<Edit>)
    ensures Rewrites(script, left, []) && Cost(script) == |left|
  {
    if left == [] {
      script := [];
    } else {
      var rest := DeleteAll(Init(left));
      script := rest + [Delete(Last(left))];
      assert script[..|script| - 1] == rest;
    }
  }

  /** Some script costs exactly what the recurrence says. */
  lemma {:induction false} BestScript(left: string, right: string) returns (script: seq<Edit>)
    ensures Rewrites(script, left, right) && Cost(script) == Distance(left, right)
    decreases |left| + |right|
  {
    if left == [] {
      script := InsertAll(right);
    } else if right == [] {
      script := DeleteAll(left);
    } else {
      var diagonal := BestScript(Init(left), Init(right));
      if Last(left) == Last(right) {
        script := Extend(diagonal, Keep(Last(left)));
      } else {
        var above := BestScript(Init(left), right);
        var beside := BestScript(left, Init(right));
        if Cost(diagonal) <= Cost(above) && Cost(diagonal) <= Cost(beside) {
          script := Extend(diagonal, Replace(Last(left), Last(right)));
        } else if Cost(above) <= Cost(beside) {
          script := Extend(above, Delete(Last(left)));
        } else {
          script := Extend(beside, Insert(Last(right)));
        }
      }
    }
  }

  lemma Extend(rest: seq<Edit>, step: Edit) returns (script: seq<Edit>)
    ensures script != [] && script[|script| - 1] == step && script[..|script| - 1] == rest
  {
    script := rest + [step];
  }

  /** The recurrence is the least cost over all scripts. */
  lemma DistanceIsLeast(left: string, right: string)
    ensures exists script :: Rewrites(script, left, right) && Cost(script) == Distance(left, right)
    ensures forall script :: Rewrites(script, left, right) ==> Distance(left, right) <= Cost(script)
  {
    var best := BestScript(left, right);
    forall script | Rewrites(script, left, right) ensures Distance(left, right) <= Cost(script) {
      NoCheaperScript(script);
    }
  }

  // ------------------------------------------------------------- the algorithm

  /** What `levenshtein` returns. The row is indexed by bytes and filled by characters, so for a
      right-hand text outside ASCII the last cell is never written. */
  function LevenshteinValue(left: string, right: string): nat {
    if AllAscii(right) then Distance(left, right) else ByteLen(right)
  }

  /** The cell of the table for the first `i` and the first `j` characters. */
  function Cell(left: string, right: string, i: nat, j: nat): nat
    requires i <= |left| && j <= |right|
  {
    Distance(left[..i], right[..j])
  }

  lemma CellStep(left: string, right: string, i: nat, j: nat)
    requires i < |left| && j < |right|
    ensures Cell(left, right, i + 1, j + 1) ==
            if left[i] == right[j] then Cell(left, right, i, j)
            else 1 + Min(Min(Cell(left, right, i, j), Cell(left, right, i, j + 1)), Cell(left, right, i + 1, j))
  {
    assert Init(left[..i + 1]) == left[..i] && Init(right[..j + 1]) == right[..j];
  }

  method Levenshtein(left: string, right: string) returns (cost: nat)
    ensures cost == LevenshteinValue(left, right)
  {
    var width := ByteLen(right);
    var costs := new nat[width + 1](j => j);
    for i := 0 to |left|
      invariant forall j | 0 <= j <= |right| :: costs[j] == Cell(left, right, i, j)
      invariant forall j | |right| < j <= width :: costs[j] == j
    {
      var previous := i;
      costs[0] := i + 1;
      for j := 0 to |right|
        invariant forall k | 0 <= k <= j :: costs[k] == Cell(left, right, i + 1, k)
        invariant forall k | j < k <= |right| :: costs[k] == Cell(left, right, i, k)
        invariant forall k | |right| < k <= width :: costs[k] == k
        invariant previous == Cell(left, right, i, j)
      {
        CellStep(left, right, i, j);
        var current := costs[j + 1];
        costs[j + 1] := if left[i] == right[j] then previous else 1 + Min(Min(previous, current), costs[j]);
        previous := current;
      }
    }
    assert left[..|left|] == left && right[..|right|] == right;
    cost := costs[width];
  }

  // ------------------------------------------------------------------- closeness

  /** `close`: equal, or the same byte length and at most one edit apart. */
  predicate Close(value: string, expected: string) {
    value == expected || (ByteLen(value) == ByteLen(expected) && LevenshteinValue(value, expected) <= 1)
  }

  ghost predicate OneMismatchAtMost(a: string, b: string)
    requires |a| == |b|
  {
    forall i, j | 0 <= i < j < |a| :: a[i] == b[i] || a[j] == b[j]
  }

  lemma {:induction false} ZeroDistance(a: string, b: string)
    ensures Distance(a, b) == 0 <==> a == b
    decreases |a| + |b|
  {
    if a != [] && b != [] {
      assert a == Init(a) + [Last(a)] && b == Init(b) + [Last(b)];
      ZeroDistance(Init(a), Init(b));
    }
  }

  lemma {:induction false} OneEditIsOneMismatch(a: string, b: string)
    requires |a| == |b|
    ensures Distance(a, b) <= 1 <==> OneMismatchAtMost(a, b)
  {
    if a != [] {
      var x, y := Init(a), Init(b);
      OneEditIsOneMismatch(x, y);
      ZeroDistance(x, y);
      ZeroDistance(x, b);
      ZeroDistance(a, y);
      if Last(a) == Last(b) {
        assert OneMismatchAtMost(a, b) <==> OneMismatchAtMost(x, y) by {
          assert forall i | 0 <= i < |x| :: x[i] == a[i] && y[i] == b[i];
        }
      } else {
        assert Distance(a, b) <= 1 <==> x == y;
        if OneMismatchAtMost(a, b) {
          assert forall i | 0 <= i < |a| - 1 :: a[i] == b[i];
        }
        if x == y {
          assert forall i | 0 <= i < |a| - 1 :: a[i] == x[i] && b[i] == y[i];
        }
      }
    }
  }

  /** On ASCII text, which is all `normalize` produces, `close` means same length and at most one
      differing position. */
  lemma CloseOnAscii(value: string, expected: string)
    requires AllAscii(value) && AllAscii(expected)
    ensures Close(value, expected) <==> |value| == |expected| && OneMismatchAtMost(value, expected)
  {
    if |value| == |expected| {
      OneEditIsOneMismatch(value, expected);
      ZeroDistance(value, expected);
    }
  }
}
