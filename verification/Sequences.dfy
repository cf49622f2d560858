/** Filters, maps and sums over sequences, and what they keep under rearrangement. */
module Sequences {

  lemma HeadApart<T>(a: seq<T>, b: seq<T>)
    requires a != []
    ensures a == [a[0]] + a[1..] && a + b == [a[0]] + (a[1..] + b)
  {
  }

  lemma Associate<T>(a: seq<T>, b: seq<T>, c: seq<T>)
    ensures (a + b) + c == a + (b + c)
  {
  }

  function Sum<T>(s: seq<T>, f: T -> real): real {
    if s == [] then 0.0 else Sum(s[..|s| - 1], f) + f(s[|s| - 1])
  }

  function Filter<T>(s: seq<T>, p: T -> bool): (r: seq<T>)
    ensures forall x | x in s && p(x) :: x in r
    ensures forall x | x in r :: x in s && p(x)
    ensures |r| <= |s|
  {
    if s == [] then []
    else
      assert s == s[..|s| - 1] + [s[|s| - 1]];
      Filter(s[..|s| - 1], p) + (if p(s[|s| - 1]) then [s[|s| - 1]] else [])
  }

  function Map<T, U>(s: seq<T>, f: T -> U): (r: seq<U>)
    ensures |r| == |s|
    ensures forall i | 0 <= i < |s| :: r[i] == f(s[i])
  {
    if s == [] then []
    else Map(s[..|s| - 1], f) + [f(s[|s| - 1])]
  }

  function Flatten<T>(parts: seq<seq<T>>): seq<T> {
    if parts == [] then [] else Flatten(parts[..|parts| - 1]) + parts[|parts| - 1]
  }

  predicate Distinct<T(==)>(s: seq<T>) {
    forall i, j | 0 <= i < j < |s| :: s[i] != s[j]
  }

  /** Some element that p accepts, with none before it that q accepts. */
  ghost predicate ComesFirst<T>(s: seq<T>, p: T -> bool, q: T -> bool) {
    exists i | 0 <= i < |s| :: p(s[i]) && forall j | 0 <= j < i :: !q(s[j])
  }

  lemma ComesNext<T>(x: T, rest: seq<T>, p: T -> bool, q: T -> bool)
    ensures ComesFirst([x] + rest, p, q) <==> p(x) || (!q(x) && ComesFirst(rest, p, q))
  {
    var all := [x] + rest;
    if p(x) { assert p(all[0]); }
    if !q(x) && ComesFirst(rest, p, q) {
      var i :| 0 <= i < |rest| && p(rest[i]) && forall j | 0 <= j < i :: !q(rest[j]);
      assert p(all[i + 1]);
      assert forall j | 0 <= j < i + 1 :: all[j] == if j == 0 then x else rest[j - 1];
    }
    if ComesFirst(all, p, q) && !p(x) {
      var i :| 0 <= i < |all| && p(all[i]) && forall j | 0 <= j < i :: !q(all[j]);
      assert all[i] == rest[i - 1] && !q(all[0]);
      assert forall j | 0 <= j < i - 1 :: rest[j] == all[j + 1];
    }
  }

  lemma SumSnoc<T>(s: seq<T>, x: T, f: T -> real)
    ensures Sum(s + [x], f) == Sum(s, f) + f(x)
  {
    assert (s + [x])[..|s|] == s;
  }

  lemma {:induction false} SumOfConcat<T>(a: seq<T>, b: seq<T>, f: T -> real)
    ensures Sum(a + b, f) == Sum(a, f) + Sum(b, f)
  {
    if b == [] {
      assert a + b == a;
    } else {
      var init, last := b[..|b| - 1], b[|b| - 1];
      SumOfConcat(a, init, f);
      assert a + b == (a + init) + [last];
      SumSnoc(a + init, last, f);
    }
  }

  /** Where an element of a rearrangement sits, and what is left without it. */
  lemma TakeOut<T>(t: seq<T>, x: T) returns (before: seq<T>, after: seq<T>)
    requires x in multiset(t)
    ensures t == before + [x] + after
    ensures multiset(before + after) == multiset(t) - multiset{x}
  {
    var i :| 0 <= i < |t| && t[i] == x;
    before, after := t[..i], t[i + 1..];
    assert t == before + [x] + after;
  }

  lemma {:induction false} SumPermutes<T>(s: seq<T>, t: seq<T>, f: T -> real)
    requires multiset(s) == multiset(t)
    ensures Sum(s, f) == Sum(t, f)
  {
    if s == [] {
      assert |multiset(t)| == |t|;
    } else {
      var init, x := s[..|s| - 1], s[|s| - 1];
      assert s == init + [x];
      assert x in multiset(s);
      var before, after := TakeOut(t, x);
      SumPermutes(init, before + after, f);
      SumOfConcat(before + [x], after, f);
      SumSnoc(before, x, f);
      SumOfConcat(before, after, f);
    }
  }

  lemma {:induction false} SumAgrees<T>(s: seq<T>, f: T -> real, g: T -> real)
    requires forall x | x in s :: f(x) == g(x)
    ensures Sum(s, f) == Sum(s, g)
  {
    if s != [] {
      assert s == s[..|s| - 1] + [s[|s| - 1]];
      SumAgrees(s[..|s| - 1], f, g);
    }
  }

  lemma FilterSnoc<T>(s: seq<T>, x: T, p: T -> bool)
    ensures Filter(s + [x], p) == Filter(s, p) + if p(x) then [x] else []
  {
    assert (s + [x])[..|s|] == s;
  }

  lemma {:induction false} FilterNone<T>(s: seq<T>, p: T -> bool)
    requires forall i | 0 <= i < |s| :: !p(s[i])
    ensures Filter(s, p) == []
  {
    if s != [] { FilterNone(s[..|s| - 1], p); }
  }

  lemma {:induction false} FilterAll<T>(s: seq<T>, p: T -> bool)
    requires forall x | x in s :: p(x)
    ensures Filter(s, p) == s
  {
    if s != [] {
      assert s[|s| - 1] in s;
      FilterAll(s[..|s| - 1], p);
      assert s == s[..|s| - 1] + [s[|s| - 1]];
    }
  }

  lemma FilterNext<T>(s: seq<T>, i: nat, p: T -> bool)
    requires i < |s|
    ensures Filter(s[..i + 1], p) == Filter(s[..i], p) + if p(s[i]) then [s[i]] else []
  {
    FilterSnoc(s[..i], s[i], p);
    assert s[..i] + [s[i]] == s[..i + 1];
  }

  lemma FilterOfTail<T>(a: seq<T>, init: seq<T>, x: T, p: T -> bool)
    requires Filter(a + init, p) == Filter(a, p) + Filter(init, p)
    ensures Filter(a + init + [x], p) == Filter(a, p) + Filter(init + [x], p)
  {
    FilterSnoc(a + init, x, p);
    FilterSnoc(init, x, p);
    Associate(Filter(a, p), Filter(init, p), if p(x) then [x] else []);
  }

  lemma {:induction false} FilterOfConcat<T>(a: seq<T>, b: seq<T>, p: T -> bool)
    ensures Filter(a + b, p) == Filter(a, p) + Filter(b, p)
  {
    if b == [] {
      assert a + b == a;
    } else {
      var init, x := b[..|b| - 1], b[|b| - 1];
      assert b == init + [x] && a + b == a + init + [x];
      FilterOfConcat(a, init, p);
      FilterOfTail(a, init, x, p);
    }
  }

  lemma FilterSingle<T>(x: T, p: T -> bool)
    ensures Filter([x], p) == if p(x) then [x] else []
  {
    assert [x][..0] == [];
  }

  lemma FilterOne<T>(x: T, s: seq<T>, p: T -> bool)
    ensures Filter([x] + s, p) == (if p(x) then [x] else []) + Filter(s, p)
  {
    FilterOfConcat([x], s, p);
    FilterSingle(x, p);
  }

  lemma FilterMiddle<T>(before: seq<T>, x: T, after: seq<T>, p: T -> bool)
    ensures Filter(before + [x] + after, p) == Filter(before, p) + Filter([x], p) + Filter(after, p)
  {
    FilterOfConcat(before + [x], after, p);
    FilterOfConcat(before, [x], p);
  }

  lemma FilterAround<T>(before: seq<T>, x: T, after: seq<T>, p: T -> bool)
    ensures multiset(Filter(before + [x] + after, p))
         == multiset(Filter(before + after, p)) + (if p(x) then multiset{x} else multiset{})
  {
    FilterMiddle(before, x, after, p);
    FilterOfConcat(before, after, p);
    FilterSingle(x, p);
  }

  lemma {:induction false} FilterPermutes<T>(s: seq<T>, t: seq<T>, p: T -> bool)
    requires multiset(s) == multiset(t)
    ensures multiset(Filter(s, p)) == multiset(Filter(t, p))
  {
    if s == [] {
      assert |multiset(t)| == |t|;
    } else {
      var init, x := s[..|s| - 1], s[|s| - 1];
      assert s == init + [x];
      assert x in multiset(s);
      var before, after := TakeOut(t, x);
      FilterPermutes(init, before + after, p);
      FilterAround(before, x, after, p);
    }
  }

  lemma {:induction false} FilterAgrees<T>(s: seq<T>, p: T -> bool, q: T -> bool)
    requires forall x | x in multiset(s) :: p(x) == q(x)
    ensures Filter(s, p) == Filter(s, q)
  {
    if s != [] {
      var init, x := s[..|s| - 1], s[|s| - 1];
      assert s == init + [x];
      assert x in multiset(s);
      FilterAgrees(init, p, q);
    }
  }

  /** A filter that is the disjoint union of two others. */
  lemma {:induction false} FilterUnion<T>(s: seq<T>, p: T -> bool, q: T -> bool, r: T -> bool)
    requires forall x | x in multiset(s) :: p(x) == (q(x) || r(x)) && !(q(x) && r(x))
    ensures |Filter(s, p)| == |Filter(s, q)| + |Filter(s, r)|
  {
    if s != [] {
      var init, x := s[..|s| - 1], s[|s| - 1];
      assert s == init + [x];
      assert x in multiset(s);
      FilterUnion(init, p, q, r);
    }
  }

  /** Three tests of which each element meets exactly one. */
  lemma {:induction false} FilterPartition<T>(s: seq<T>, p: T -> bool, q: T -> bool, r: T -> bool)
    requires forall x | x in s :: (p(x) || q(x) || r(x)) && !(p(x) && q(x)) && !(p(x) && r(x)) && !(q(x) && r(x))
    ensures |Filter(s, p)| + |Filter(s, q)| + |Filter(s, r)| == |s|
  {
    if s != [] {
      var init, x := s[..|s| - 1], s[|s| - 1];
      assert s == init + [x];
      FilterPartition(init, p, q, r);
      FilterSnoc(init, x, p);
      FilterSnoc(init, x, q);
      FilterSnoc(init, x, r);
      assert x in s;
    }
  }

  lemma {:induction false} MapOfConcat<T, U>(a: seq<T>, b: seq<T>, f: T -> U)
    ensures Map(a + b, f) == Map(a, f) + Map(b, f)
  {
  }

  lemma MapFirst<T, U>(s: seq<T>, f: T -> U)
    requires s != []
    ensures Map(s, f) == [f(s[0])] + Map(s[1..], f)
  {
  }

  function IfTaken<T>(x: T, taken: bool): seq<T> {
    if taken then [x] else []
  }

  lemma TakenThenFiltered<T, U>(x: T, taken: bool, f: T -> U, q: U -> bool)
    ensures Filter(Map(IfTaken(x, taken), f), q) == Map(IfTaken(x, taken && q(f(x))), f)
  {
    if taken {
      assert Map([x], f) == [f(x)];
      FilterSingle(f(x), q);
    }
  }

  lemma FilterMapSnoc<T, U>(kept: seq<T>, x: T, taken: bool, f: T -> U, q: U -> bool, twice: seq<T>)
    requires Filter(Map(kept, f), q) == Map(twice, f)
    ensures Filter(Map(kept + IfTaken(x, taken), f), q) == Map(twice + IfTaken(x, taken && q(f(x))), f)
  {
    MapOfConcat(kept, IfTaken(x, taken), f);
    FilterOfConcat(Map(kept, f), Map(IfTaken(x, taken), f), q);
    TakenThenFiltered(x, taken, f, q);
    MapOfConcat(twice, IfTaken(x, taken && q(f(x))), f);
  }

  /** Filtering, mapping and filtering again is filtering by both tests and mapping. */
  lemma {:induction false} FilterMapFilter<T, U>(s: seq<T>, p: T -> bool, f: T -> U, q: U -> bool, r: T -> bool)
    requires forall x | x in s :: r(x) == (p(x) && q(f(x)))
    ensures Filter(Map(Filter(s, p), f), q) == Map(Filter(s, r), f)
  {
    if s != [] {
      var init, x := s[..|s| - 1], s[|s| - 1];
      assert s == init + [x];
      FilterMapFilter(init, p, f, q, r);
      FilterMapSnoc(Filter(init, p), x, p(x), f, q, Filter(init, r));
    }
  }

  /** Filtering what was mapped is mapping what was filtered by the composed test. */
  lemma {:induction false} FilterOfMap<T, U>(s: seq<T>, f: T -> U, p: U -> bool, q: T -> bool)
    requires forall x | x in s :: q(x) == p(f(x))
    ensures Filter(Map(s, f), p) == Map(Filter(s, q), f)
  {
    if s != [] {
      var init, x := s[..|s| - 1], s[|s| - 1];
      assert s == init + [x];
      FilterOfMap(init, f, p, q);
      assert Map(s, f) == Map(init, f) + [f(x)];
      FilterSnoc(Map(init, f), f(x), p);
      MapOfConcat(Filter(init, q), if q(x) then [x] else [], f);
    }
  }

  lemma MapIs<T, U>(s: seq<T>, f: T -> U, t: seq<U>)
    requires |t| == |s| && forall i | 0 <= i < |s| :: t[i] == f(s[i])
    ensures t == Map(s, f)
  {
  }

  lemma MapOfMap<T, U, V>(s: seq<T>, f: T -> U, g: U -> V, h: T -> V)
    requires forall x | x in s :: h(x) == g(f(x))
    ensures Map(Map(s, f), g) == Map(s, h)
  {
    forall i | 0 <= i < |s| ensures Map(Map(s, f), g)[i] == Map(s, h)[i] {
      assert s[i] in s;
    }
  }

  lemma MapAround<T, U>(before: seq<T>, x: T, after: seq<T>, f: T -> U)
    ensures multiset(Map(before + [x] + after, f)) == multiset(Map(before + after, f)) + multiset{f(x)}
  {
    MapOfConcat(before + [x], after, f);
    MapOfConcat(before, [x], f);
    MapOfConcat(before, after, f);
    assert Map([x], f) == [f(x)];
  }

  lemma {:induction false} MapPermutes<T, U>(s: seq<T>, t: seq<T>, f: T -> U)
    requires multiset(s) == multiset(t)
    ensures multiset(Map(s, f)) == multiset(Map(t, f))
  {
    if s == [] {
      assert |multiset(t)| == |t|;
    } else {
      var init, x := s[..|s| - 1], s[|s| - 1];
      assert s == init + [x];
      assert x in multiset(s);
      var before, after := TakeOut(t, x);
      MapPermutes(init, before + after, f);
      MapAround(before, x, after, f);
    }
  }

  lemma {:induction false} SumOfMap<T, U>(s: seq<T>, g: T -> U, f: U -> real, h: T -> real)
    requires forall x | x in s :: f(g(x)) == h(x)
    ensures Sum(Map(s, g), f) == Sum(s, h)
  {
    if s != [] {
      var init, x := s[..|s| - 1], s[|s| - 1];
      assert s == init + [x];
      SumOfMap(init, g, f, h);
      assert Map(s, g) == Map(init, g) + [g(x)];
      SumSnoc(Map(init, g), g(x), f);
    }
  }

  /** Sums of a function that is nowhere smaller: equal only when it is nowhere larger. */
  lemma {:induction false} SumDominates<T>(s: seq<T>, f: T -> real, g: T -> real)
    requires forall x | x in s :: f(x) <= g(x)
    ensures Sum(s, f) <= Sum(s, g)
    ensures Sum(s, f) == Sum(s, g) <==> forall x | x in s :: f(x) == g(x)
  {
    if s != [] {
      var init, x := s[..|s| - 1], s[|s| - 1];
      assert s == init + [x];
      SumDominates(init, f, g);
    }
  }

  lemma {:induction false} SameMembers<T>(s: seq<T>, t: seq<T>)
    requires Distinct(s) && Distinct(t)
    requires forall x :: x in s <==> x in t
    ensures multiset(s) == multiset(t)
  {
    forall x ensures multiset(s)[x] == multiset(t)[x] {
      CountDistinct(s, x);
      CountDistinct(t, x);
    }
  }

  lemma {:induction false} CountDistinct<T>(s: seq<T>, x: T)
    requires Distinct(s)
    ensures multiset(s)[x] == if x in s then 1 else 0
  {
    if s != [] {
      var init, last := s[..|s| - 1], s[|s| - 1];
      assert s == init + [last];
      assert last !in init;
      CountDistinct(init, x);
    }
  }

  function One(b: bool): nat {
    if b then 1 else 0
  }

  /** How many elements meet the test. */
  function Tally<T>(s: seq<T>, p: T -> bool): nat {
    if s == [] then 0 else One(p(s[0])) + Tally(s[1..], p)
  }

  lemma {:induction false} TallyMoved<T>(s: seq<T>, i: nat, x: T, p: T -> bool)
    requires i < |s|
    ensures Tally(s[i := x], p) + One(p(s[i])) == Tally(s, p) + One(p(x))
  {
    if i == 0 {
      assert s[i := x][1..] == s[1..];
    } else {
      TallyMoved(s[1..], i - 1, x, p);
      assert s[i := x][1..] == s[1..][i - 1 := x];
    }
  }

  lemma {:induction false} TallyNone<T>(s: seq<T>, p: T -> bool)
    requires forall i | 0 <= i < |s| :: !p(s[i])
    ensures Tally(s, p) == 0
  {
    if s != [] { TallyNone(s[1..], p); }
  }

  lemma {:induction false} TallyOne<T>(s: seq<T>, i: nat, p: T -> bool)
    requires i < |s| && p(s[i])
    ensures Tally(s, p) > 0
  {
    if i > 0 { TallyOne(s[1..], i - 1, p); }
  }

  lemma {:induction false} TallyTwo<T>(s: seq<T>, i: nat, j: nat, p: T -> bool)
    requires i < j < |s| && p(s[i]) && p(s[j])
    ensures Tally(s, p) > 1
  {
    if i == 0 { TallyOne(s[1..], j - 1, p); } else { TallyTwo(s[1..], i - 1, j - 1, p); }
  }

  lemma {:induction false} SomeTallied<T>(s: seq<T>, p: T -> bool) returns (i: nat)
    requires Tally(s, p) > 0
    ensures i < |s| && p(s[i])
  {
    if p(s[0]) {
      i := 0;
    } else {
      i := SomeTallied(s[1..], p);
      i := i + 1;
    }
  }

  lemma {:induction false} TwoTallied<T>(s: seq<T>, p: T -> bool) returns (i: nat, j: nat)
    requires Tally(s, p) > 1
    ensures i < j < |s| && p(s[i]) && p(s[j])
  {
    if p(s[0]) {
      i := 0;
      j := SomeTallied(s[1..], p);
      j := j + 1;
    } else {
      i, j := TwoTallied(s[1..], p);
      i, j := i + 1, j + 1;
    }
  }
}
