/** Scoring and ranking of src/erpdb/werka_item_search.rs. */
module ItemSearch {
  import opened Text
  import opened Orders
  import opened Sequences
  import opened SearchText

  // --------------------------------------------------------------- the three forms

  predicate NotSpace(c: char) {
    c != ' '
  }

  predicate NotVowel(c: char) {
    !(c == 'a' || c == 'e' || c == 'i' || c == 'o' || c == 'u')
  }

  function Compact(s: string): string {
    Filter(s, NotSpace)
  }

  function Skeleton(s: string): string {
    Filter(s, NotVowel)
  }

  /** A text, without its spaces, and without its vowels too. */
  datatype Forms = Forms(text: string, compact: string, skeleton: string)

  function FormsOf(text: string): Forms {
    Forms(text, Compact(text), Skeleton(Compact(text)))
  }

  // ------------------------------------------------------------------------ scoring

  predicate WordStarts(hay: string, needle: string) {
    exists w | w in Words(hay) :: needle <= w
  }

  /** A skeleton is used from three bytes on. */
  predicate LongEnough(skeleton: string) {
    ByteLen(skeleton) >= 3
  }

  function TextScore(needle: string, hay: string): nat {
    if hay == needle then 1000
    else if needle <= hay then 850
    else if WordStarts(hay, needle) then 700
    else if Contains(hay, needle) then 550
    else 0
  }

  function CompactScore(needle: string, hay: string): nat {
    if hay == needle then 500
    else if needle <= hay then 425
    else if Contains(hay, needle) then 350
    else 0
  }

  function SkeletonScore(needle: string, hay: string): nat {
    if hay == needle then 250
    else if needle <= hay then 175
    else if Contains(hay, needle) then 125
    else 0
  }

  /** `search_value_score` on normalised texts. */
  function FormsScore(needle: Forms, hay: Forms): nat {
    if hay.text == [] then 0
    else if TextScore(needle.text, hay.text) > 0 then TextScore(needle.text, hay.text)
    else if needle.compact == [] then 0
    else if CompactScore(needle.compact, hay.compact) > 0 then CompactScore(needle.compact, hay.compact)
    else if needle.skeleton == [] || !LongEnough(needle.skeleton) then 0
    else SkeletonScore(needle.skeleton, hay.skeleton)
  }

  /** `search_value_score`. */
  function SearchValueScore(u: Classes, needle: string, value: string): nat {
    FormsScore(FormsOf(needle), FormsOf(Normalize(u, value)))
  }

  // ----------------------------------------------- what the tiers mean for each other

  lemma ContainsItself(s: string)
    ensures Contains(s, s)
  {
    ContainsIntro(s, [], s, []);
  }

  lemma PrefixContained(hay: string, needle: string)
    requires needle <= hay
    ensures Contains(hay, needle)
  {
    assert hay == [] + needle + hay[|needle|..];
    ContainsIntro(hay, [], needle, hay[|needle|..]);
  }

  lemma ContainsTrans(a: string, b: string, c: string)
    requires Contains(a, b) && Contains(b, c)
    ensures Contains(a, c)
  {
    var before, after := ContainsElim(a, b);
    var inBefore, inAfter := ContainsElim(b, c);
    assert a == (before + inBefore) + c + (inAfter + after);
    ContainsIntro(a, before + inBefore, c, inAfter + after);
  }

  lemma MiddleContained(before: string, middle: string, after: string, needle: string)
    requires Contains(middle, needle)
    ensures Contains(before + middle + after, needle)
  {
    ContainsIntro(before + middle + after, before, middle, after);
    ContainsTrans(before + middle + after, middle, needle);
  }

  lemma {:induction false} WordsInside(s: string, w: string)
    requires w in Words(s)
    ensures Contains(s, w)
    decreases |s|
  {
    var before := TrimStartCuts(s, IsWhite);
    var t := TrimStart(s, IsWhite);
    var n := WordLength(t);
    if w == t[..n] {
      ContainsItself(w);
      MiddleContained(before, w, t[n..], w);
      assert s == before + w + t[n..];
    } else {
      WordsInside(t[n..], w);
      MiddleContained(before + t[..n], t[n..], [], w);
      assert s == (before + t[..n]) + t[n..] + [];
    }
  }

  /** Dropping the same characters from both keeps a substring a substring. */
  lemma FilterContained(hay: string, needle: string, p: char -> bool)
    requires Contains(hay, needle)
    ensures Contains(Filter(hay, p), Filter(needle, p))
  {
    var before, after := ContainsElim(hay, needle);
    FilterOfConcat(before + needle, after, p);
    FilterOfConcat(before, needle, p);
    ContainsIntro(Filter(hay, p), Filter(before, p), Filter(needle, p), Filter(after, p));
  }

  lemma FilterPrefix(hay: string, needle: string, p: char -> bool)
    requires needle <= hay
    ensures Filter(needle, p) <= Filter(hay, p)
  {
    assert hay == needle + hay[|needle|..];
    FilterOfConcat(needle, hay[|needle|..], p);
  }

  lemma TextScorePositive(needle: string, hay: string)
    ensures TextScore(needle, hay) > 0 <==> Contains(hay, needle)
  {
    if hay == needle { ContainsItself(hay); }
    if needle <= hay { PrefixContained(hay, needle); }
    if WordStarts(hay, needle) {
      var w :| w in Words(hay) && needle <= w;
      WordsInside(hay, w);
      PrefixContained(w, needle);
      ContainsTrans(hay, w, needle);
    }
  }

  lemma CompactScorePositive(needle: string, hay: string)
    ensures CompactScore(needle, hay) > 0 <==> Contains(hay, needle)
    ensures SkeletonScore(needle, hay) > 0 <==> Contains(hay, needle)
  {
    if hay == needle { ContainsItself(hay); }
    if needle <= hay { PrefixContained(hay, needle); }
  }

  /** Each form's relation implies the same relation of the weaker forms. */
  lemma StrongerImpliesWeaker(needle: string, hay: string)
    ensures Contains(hay, needle) ==> Contains(Compact(hay), Compact(needle))
    ensures needle <= hay ==> Compact(needle) <= Compact(hay)
    ensures Contains(Compact(hay), Compact(needle)) ==> Contains(Skeleton(Compact(hay)), Skeleton(Compact(needle)))
    ensures Compact(needle) <= Compact(hay) ==> Skeleton(Compact(needle)) <= Skeleton(Compact(hay))
  {
    if Contains(hay, needle) { FilterContained(hay, needle, NotSpace); }
    if needle <= hay { FilterPrefix(hay, needle, NotSpace); }
    if Contains(Compact(hay), Compact(needle)) { FilterContained(Compact(hay), Compact(needle), NotVowel); }
    if Compact(needle) <= Compact(hay) { FilterPrefix(Compact(hay), Compact(needle), NotVowel); }
  }

  lemma EmptyHay(needle: string)
    requires needle != []
    ensures !Contains([], needle)
  {
  }

  lemma CompactNotEmpty(u: Classes, s: string)
    requires Sound(u) && IsNormal(u, s) && s != []
    ensures Compact(s) != []
  {
    assert !IsWhite(s[0]) && s[0] in s;
    assert s[0] in Compact(s);
  }

  /** When a normalised, non-empty needle is found in a value at all. */
  predicate Found(needle: Forms, hay: Forms) {
    || Contains(hay.compact, needle.compact)
    || (LongEnough(needle.skeleton) && Contains(hay.skeleton, needle.skeleton))
  }

  /** A value scores exactly when its compact form holds the compact needle, or its skeleton
      holds the needle's skeleton and that one is three bytes or longer. */
  lemma ScorePositive(u: Classes, needle: string, value: string)
    requires Sound(u) && IsNormal(u, needle) && needle != []
    ensures SearchValueScore(u, needle, value) > 0 <==> Found(FormsOf(needle), FormsOf(Normalize(u, value)))
  {
    var hay := Normalize(u, value);
    var n, h := FormsOf(needle), FormsOf(hay);
    CompactNotEmpty(u, needle);
    TextScorePositive(needle, hay);
    CompactScorePositive(n.compact, h.compact);
    CompactScorePositive(n.skeleton, h.skeleton);
    StrongerImpliesWeaker(needle, hay);
    if hay == [] {
      EmptyHay(n.compact);
      if n.skeleton != [] { EmptyHay(n.skeleton); }
    }
  }

  /** The needle holds no white space and stands where a word of the text begins. */
  predicate BeginsWord(hay: string, needle: string) {
    (forall c | c in needle :: !IsWhite(c)) && exists i | 0 <= i <= |hay| :: WordAt(hay, needle, i)
  }

  predicate WordAt(hay: string, needle: string, i: nat)
    requires i <= |hay|
  {
    needle <= hay[i..] && (i == 0 || IsWhite(hay[i - 1]))
  }

  lemma WordAtLater(front: string, rest: string, needle: string, j: nat)
    requires 0 < j <= |rest|
    ensures WordAt(front + rest, needle, |front| + j) <==> WordAt(rest, needle, j)
  {
    assert (front + rest)[|front| + j..] == rest[j..];
  }

  /** White space, a word, and what is behind it: a needle begins a word of all if it begins this one
      or one of those behind it. */
  lemma FirstOrLater(before: string, w: string, rest: string, needle: string)
    requires needle != [] && (forall c | c in needle :: !IsWhite(c)) && (forall c | c in before :: IsWhite(c))
    requires w != [] && (forall i | 0 <= i < |w| :: !IsWhite(w[i])) && (rest == [] || IsWhite(rest[0]))
    ensures BeginsWord(before + w + rest, needle) <==> needle <= w || BeginsWord(rest, needle)
  {
    var hay := before + w + rest;
    if needle <= w {
      CharsOf(before, w, rest);
      assert WordAt(hay, needle, |before|);
    } else if BeginsWord(rest, needle) {
      var j :| 0 <= j <= |rest| && WordAt(rest, needle, j);
      WordAtChar(rest, needle, j);
      WordAtLater(before + w, rest, needle, j);
    }
    if BeginsWord(hay, needle) {
      var i :| 0 <= i <= |hay| && WordAt(hay, needle, i);
      BeginsHere(before, w, rest, needle, i);
    }
  }

  lemma WordAtChar(hay: string, needle: string, i: nat)
    requires needle != [] && i <= |hay| && WordAt(hay, needle, i)
    ensures i < |hay| && hay[i] == needle[0] && hay[i] in hay && needle[0] in needle
  {
  }

  lemma CharsOf(before: string, w: string, rest: string)
    requires (forall c | c in before :: IsWhite(c)) && (forall i | 0 <= i < |w| :: !IsWhite(w[i]))
    requires rest == [] || IsWhite(rest[0])
    ensures var hay, n := before + w + rest, |before|;
            && (forall k | 0 <= k < n :: IsWhite(hay[k])) && (forall k | n <= k < n + |w| :: !IsWhite(hay[k]))
            && (|hay| > n + |w| ==> IsWhite(hay[n + |w|])) && hay[n..] == w + rest
  {
    forall k | 0 <= k < |before| ensures IsWhite((before + w + rest)[k]) { assert before[k] in before; }
  }

  lemma WithinWord(needle: string, w: string, rest: string)
    requires (forall c | c in needle :: !IsWhite(c)) && needle <= w + rest && (rest == [] || IsWhite(rest[0]))
    ensures needle <= w
  {
    if |needle| > |w| { EndsInside(needle, w, rest); }
  }

  lemma EndsInside(needle: string, w: string, rest: string)
    requires needle <= w + rest && |needle| > |w|
    ensures rest != [] && rest[0] in needle
  {
    assert needle[|w|] == rest[0];
  }

  lemma BeginsHere(before: string, w: string, rest: string, needle: string, i: nat)
    requires needle != [] && (forall c | c in needle :: !IsWhite(c)) && (forall c | c in before :: IsWhite(c))
    requires w != [] && (forall i | 0 <= i < |w| :: !IsWhite(w[i])) && (rest == [] || IsWhite(rest[0]))
    requires i <= |before + w + rest| && WordAt(before + w + rest, needle, i)
    ensures needle <= w || BeginsWord(rest, needle)
  {
    WordAtChar(before + w + rest, needle, i);
    CharsOf(before, w, rest);
    if i > |before| + |w| {
      WordAtLater(before + w, rest, needle, i - |before| - |w|);
    } else {
      assert i == |before|;
      WithinWord(needle, w, rest);
    }
  }

  lemma NoWordInWhite(hay: string, needle: string)
    requires needle != [] && forall c | c in hay :: IsWhite(c)
    ensures !BeginsWord(hay, needle)
  {
    if BeginsWord(hay, needle) {
      var i :| 0 <= i <= |hay| && WordAt(hay, needle, i);
      WordAtChar(hay, needle, i);
    }
  }

  lemma {:induction false} WordsOfWords(s: string)
    ensures forall w | w in Words(s) :: forall c | c in w :: !IsWhite(c)
    decreases |s|
  {
    var t := TrimStart(s, IsWhite);
    if t != [] { WordsOfWords(t[WordLength(t)..]); }
  }

  /** A word of the text starts with the needle exactly when the needle, without white space in it, stands
      at the text's front or behind white space. */
  lemma {:induction false} WordStartsIs(hay: string, needle: string)
    requires needle != []
    ensures WordStarts(hay, needle) <==> BeginsWord(hay, needle)
    decreases |hay|
  {
    if exists c :: c in needle && IsWhite(c) {
      WordsOfWords(hay);
      var c :| c in needle && IsWhite(c);
      assert forall w | w in Words(hay) && needle <= w :: c in w;
    } else {
      var before := TrimStartCuts(hay, IsWhite);
      var t := TrimStart(hay, IsWhite);
      if t == [] {
        NoWordInWhite(hay, needle);
      } else {
        var n := WordLength(t);
        WordStartsIs(t[n..], needle);
        FirstOrLater(before, t[..n], t[n..], needle);
        assert hay == before + t[..n] + t[n..];
        StartsFirstOrLater(hay, t, needle);
      }
    }
  }

  lemma StartsFirstOrLater(hay: string, t: string, needle: string)
    requires t == TrimStart(hay, IsWhite) && t != []
    ensures WordStarts(hay, needle) <==> needle <= t[..WordLength(t)] || WordStarts(t[WordLength(t)..], needle)
  {
    var first, later := t[..WordLength(t)], Words(t[WordLength(t)..]);
    assert Words(hay) == [first] + later;
    if WordStarts(hay, needle) {
      var w :| w in Words(hay) && needle <= w;
      assert w == first || w in later;
    }
    if needle <= first { assert first in Words(hay); }
    if WordStarts(t[WordLength(t)..], needle) {
      var w :| w in later && needle <= w;
      assert w in Words(hay);
    }
  }

  /** A blank stands for nothing in the compact form, a vowel for nothing in the skeleton; all else
      stays. */
  lemma FormsDrop(before: string, c: char, after: string)
    ensures c == ' ' ==> Compact(before + [c] + after) == Compact(before + after)
    ensures c == 'a' || c == 'e' || c == 'i' || c == 'o' || c == 'u' ==>
              Skeleton(before + [c] + after) == Skeleton(before + after)
    ensures (forall d | d in before :: d != ' ') ==> Compact(before) == before
    ensures (forall d | d in before :: d != 'a' && d != 'e' && d != 'i' && d != 'o' && d != 'u') ==>
              Skeleton(before) == before
  {
    if !NotSpace(c) { DropOf(before, c, after, NotSpace); }
    if !NotVowel(c) { DropOf(before, c, after, NotVowel); }
    if forall d | d in before :: NotSpace(d) { FilterAll(before, NotSpace); }
    if forall d | d in before :: NotVowel(d) { FilterAll(before, NotVowel); }
  }

  lemma DropOf(before: string, c: char, after: string, p: char -> bool)
    requires !p(c)
    ensures Filter(before + [c] + after, p) == Filter(before + after, p)
  {
    hide *;
    FilterMiddle(before, c, after, p);
    FilterOfConcat(before, after, p);
    FilterSingle(c, p);
    assert Filter(before, p) + [] + Filter(after, p) == Filter(before, p) + Filter(after, p);
  }

  /** What each tier asks of a value. */
  predicate Meets(tier: nat, needle: Forms, hay: Forms) {
    match tier
    case 1000 => hay.text == needle.text
    case 850 => needle.text <= hay.text
    case 700 => BeginsWord(hay.text, needle.text)
    case 550 => Contains(hay.text, needle.text)
    case 500 => hay.compact == needle.compact
    case 425 => needle.compact <= hay.compact
    case 350 => Contains(hay.compact, needle.compact)
    case 250 => LongEnough(needle.skeleton) && hay.skeleton == needle.skeleton
    case 175 => LongEnough(needle.skeleton) && needle.skeleton <= hay.skeleton
    case 125 => LongEnough(needle.skeleton) && Contains(hay.skeleton, needle.skeleton)
    case _ => false
  }

  lemma TierFound(tier: nat, needle: Forms, hay: Forms)
    requires Meets(tier, needle, hay) && needle.text != []
    ensures tier >= 550 ==> Contains(hay.text, needle.text)
    ensures 350 <= tier < 550 ==> Contains(hay.compact, needle.compact)
    ensures tier < 350 ==> LongEnough(needle.skeleton) && Contains(hay.skeleton, needle.skeleton)
  {
    WordStartsIs(hay.text, needle.text);
    TextScorePositive(needle.text, hay.text);
    CompactScorePositive(needle.compact, hay.compact);
    CompactScorePositive(needle.skeleton, hay.skeleton);
  }

  lemma HighestTier(tier: nat, needle: Forms, hay: Forms)
    requires Meets(tier, needle, hay) && FormsScore(needle, hay) > 0
    requires needle.compact != [] && needle.text != []
    ensures tier <= FormsScore(needle, hay)
  {
    WordStartsIs(hay.text, needle.text);
    TierFound(tier, needle, hay);
    TextScorePositive(needle.text, hay.text);
    CompactScorePositive(needle.compact, hay.compact);
    CompactScorePositive(needle.skeleton, hay.skeleton);
  }

  lemma ScoreMeets(needle: Forms, hay: Forms)
    requires FormsScore(needle, hay) > 0 && needle.text != []
    ensures Meets(FormsScore(needle, hay), needle, hay)
  {
    WordStartsIs(hay.text, needle.text);
  }

  lemma MetScores(u: Classes, needle: string, value: string, tier: nat)
    requires Sound(u) && IsNormal(u, needle) && needle != []
    requires Meets(tier, FormsOf(needle), FormsOf(Normalize(u, value)))
    ensures SearchValueScore(u, needle, value) > 0
  {
    TierFound(tier, FormsOf(needle), FormsOf(Normalize(u, value)));
    StrongerImpliesWeaker(needle, Normalize(u, value));
    ScorePositive(u, needle, value);
  }

  /** A score is the highest tier the value meets, and zero when it meets none. */
  lemma ScoreIsHighestTier(u: Classes, needle: string, value: string)
    requires Sound(u) && IsNormal(u, needle) && needle != []
    ensures var n, h, score := FormsOf(needle), FormsOf(Normalize(u, value)), SearchValueScore(u, needle, value);
            && (score > 0 ==> Meets(score, n, h))
            && forall tier: nat | Meets(tier, n, h) :: tier <= score
  {
    var n, h := FormsOf(needle), FormsOf(Normalize(u, value));
    CompactNotEmpty(u, needle);
    if FormsScore(n, h) > 0 { ScoreMeets(n, h); }
    forall tier: nat | Meets(tier, n, h) ensures tier <= FormsScore(n, h) {
      MetScores(u, needle, value, tier);
      HighestTier(tier, n, h);
    }
  }

  lemma ShortForms(c: char, v: char)
    requires NotSpace(c) && NotVowel(c) && NotSpace(v) && !NotVowel(v)
    ensures FormsOf([c, v]) == Forms([c, v], [c, v], [c])
  {
    FilterAll([c, v], NotSpace);
    assert [c, v][..1] == [c] && [c][..0] == [];
  }

  lemma OtherEnding(c: char, v: char, w: char)
    requires v != w
    ensures !Contains([c, w], [c, v])
  {
    forall i: nat | i <= 2 ensures !OccursAt([c, w], [c, v], i) {
      assert i == 0 ==> [c, w][i..2] == [c, w];
      assert [c, w][1] != [c, v][1];
    }
  }

  predicate IsVowel(v: char) {
    v == 'a' || v == 'e' || v == 'i' || v == 'o' || v == 'u'
  }

  lemma VowelIsNormal(u: Classes, v: char)
    requires Sound(u) && IsVowel(v)
    ensures NormalChar(u, v) && NotSpace(v) && !NotVowel(v)
  {
    LatinIsPlain(v);
  }

  lemma PairIsNormal(u: Classes, c: char, v: char)
    requires Sound(u) && u.alnum(c) && Clean(u, c) && IsVowel(v)
    ensures IsNormal(u, [c, v]) && Normalize(u, [c, v]) == [c, v] && NotSpace(c)
  {
    VowelIsNormal(u, v);
    assert !IsWhite(c) && !IsWhite(v);
    NormalIsFixed(u, [c, v]);
  }

  lemma OneCharLength(c: char)
    ensures ByteLen([c]) == Utf8Width(c)
  {
    assert [c][1..] == [];
  }

  /** The three bytes are bytes, not letters: a needle of one consonant and a vowel finds a value
      that differs in the vowel exactly when the consonant takes three bytes or more. */
  lemma OneLetterSkeleton(u: Classes, c: char, v: char, w: char)
    requires Sound(u) && u.alnum(c) && Clean(u, c) && NotVowel(c)
    requires IsVowel(v) && IsVowel(w) && v != w
    ensures SearchValueScore(u, [c, v], [c, w]) > 0 <==> Utf8Width(c) >= 3
  {
    PairIsNormal(u, c, v);
    PairIsNormal(u, c, w);
    ScorePositive(u, [c, v], [c, w]);
    VowelIsNormal(u, v);
    VowelIsNormal(u, w);
    ShortForms(c, v);
    ShortForms(c, w);
    OtherEnding(c, v, w);
    ContainsItself([c]);
    OneCharLength(c);
  }

  /** So a Latin consonant is never enough. */
  lemma LatinConsonant(u: Classes, c: char, v: char, w: char)
    requires Sound(u) && 'a' <= c <= 'w' && NotVowel(c) && IsVowel(v) && IsVowel(w) && v != w
    ensures SearchValueScore(u, [c, v], [c, w]) == 0
  {
    LatinIsPlain(c);
    OneLetterSkeleton(u, c, v, w);
  }

  const BAN := 0x10D1 as char

  lemma BanIsClean(u: Classes)
    requires u.lower(BAN) == BAN
    ensures Clean(u, BAN) && NotVowel(BAN) && Utf8Width(BAN) == 3
  {
  }

  /** And the Georgian letter ban is. */
  lemma GeorgianConsonant(u: Classes, v: char, w: char)
    requires Sound(u) && u.alnum(BAN) && u.lower(BAN) == BAN && IsVowel(v) && IsVowel(w) && v != w
    ensures SearchValueScore(u, [BAN, v], [BAN, w]) > 0
  {
    BanIsClean(u);
    OneLetterSkeleton(u, BAN, v, w);
  }

  // -------------------------------------------------------------- scoring many values

  const STEP := 10

  /** The best of the first scores, each lowered by ten for every value before it. */
  function Best(scores: seq<nat>): nat {
    if scores == [] then 0
    else
      var last := |scores| - 1;
      var best := Best(scores[..last]);
      if scores[last] == 0 || (scores[last] as int) - STEP * last <= best then best
      else scores[last] - STEP * last
  }

  function Scorer(u: Classes, needle: string): string -> nat {
    (value: string) => SearchValueScore(u, needle, value)
  }

  /** `search_query_score`. */
  function QueryScore(u: Classes, query: string, values: seq<string>): nat {
    var needle := Normalize(u, query);
    if needle == [] then 1 else Best(Map(values, Scorer(u, needle)))
  }

  lemma BestNext(scores: seq<nat>, i: nat)
    requires i < |scores|
    ensures Best(scores[..i + 1])
         == if scores[i] == 0 || scores[i] as int - STEP * i <= Best(scores[..i]) then Best(scores[..i])
            else scores[i] as int - STEP * i
  {
    assert scores[..i + 1][..i] == scores[..i];
  }

  /** The loop of `search_query_score`. */
  method BestOf(values: seq<string>, read: string -> nat) returns (best: int)
    ensures best == Best(Map(values, read))
  {
    ghost var scores := Map(values, read);
    best := 0;
    for index := 0 to |values|
      invariant best == Best(scores[..index])
    {
      BestNext(scores, index);
      var score: int := read(values[index]);
      if score != 0 {
        score := score - index * STEP;
        best := if score > best then score else best;
      }
    }
    assert scores[..|values|] == scores;
  }

  method SearchQueryScore(u: Classes, query: string, values: seq<string>) returns (best: int)
    ensures best == QueryScore(u, query, values)
  {
    var needle := NormalizeForSearch(u, query);
    if needle == [] {
      return 1;
    }
    best := BestOf(values, Scorer(u, needle));
  }

  /** The best is reached by some value and beaten by none. */
  lemma {:induction false} BestIsGreatest(scores: seq<nat>)
    ensures forall i | 0 <= i < |scores| && scores[i] > 0 :: scores[i] as int - STEP * i <= Best(scores)
    ensures Best(scores) > 0 ==> exists i :: 0 <= i < |scores| && Best(scores) == scores[i] as int - STEP * i
    ensures Best(scores) > 0 <==> exists i :: 0 <= i < |scores| && scores[i] > STEP * i
  {
    if scores != [] {
      var last := |scores| - 1;
      BestIsGreatest(scores[..last]);
      forall i | 0 <= i < |scores| && scores[i] > 0 ensures scores[i] as int - STEP * i <= Best(scores) {
        if i < last { assert scores[..last][i] == scores[i]; }
      }
      if Best(scores) > 0 && Best(scores) == Best(scores[..last]) {
        var i :| 0 <= i < last && Best(scores) == scores[..last][i] as int - STEP * i;
        assert Best(scores) == scores[i] as int - STEP * i;
      } else if Best(scores) > 0 {
        assert Best(scores) == scores[last] as int - STEP * last;
      }
      if i :| 0 <= i < |scores| && scores[i] > STEP * i {
        assert scores[i] as int - STEP * i <= Best(scores);
      }
    }
  }

  const WEAKEST := 125

  lemma ScoreAtLeast(needle: Forms, hay: Forms)
    ensures FormsScore(needle, hay) == 0 || FormsScore(needle, hay) >= WEAKEST
  {
  }

  /** Some value of the list holds the needle. */
  predicate FoundIn(u: Classes, needle: string, values: seq<string>) {
    exists i | 0 <= i < |values| :: Found(FormsOf(needle), FormsOf(Normalize(u, values[i])))
  }

  /** Up to thirteen values the query scores exactly when some value holds the needle. */
  lemma QueryPositive(u: Classes, query: string, values: seq<string>)
    requires Sound(u) && Normalize(u, query) != [] && |values| <= 13
    ensures QueryScore(u, query, values) > 0 <==> FoundIn(u, Normalize(u, query), values)
  {
    var needle := Normalize(u, query);
    var scores := Map(values, Scorer(u, needle));
    NormalizeIsNormal(u, query);
    BestIsGreatest(scores);
    forall i | 0 <= i < |values|
      ensures scores[i] > STEP * i <==> Found(FormsOf(needle), FormsOf(Normalize(u, values[i])))
    {
      ScorePositive(u, needle, values[i]);
      ScoreAtLeast(FormsOf(needle), FormsOf(Normalize(u, values[i])));
    }
  }

  /** At any length: the query scores exactly when some value scores more than ten times its
      place, so only weak matches far down the list are lost. */
  lemma QueryPositiveAnywhere(u: Classes, query: string, values: seq<string>)
    requires Normalize(u, query) != []
    ensures QueryScore(u, query, values) > 0
       <==> exists i :: 0 <= i < |values| && SearchValueScore(u, Normalize(u, query), values[i]) > STEP * i
  {
    var scores := Map(values, Scorer(u, Normalize(u, query)));
    BestIsGreatest(scores);
    if i :| 0 <= i < |values| && SearchValueScore(u, Normalize(u, query), values[i]) > STEP * i {
      assert scores[i] > STEP * i;
    }
    if i :| 0 <= i < |scores| && scores[i] > STEP * i {
      assert SearchValueScore(u, Normalize(u, query), values[i]) > STEP * i;
    }
  }

  lemma NormalAscii(u: Classes, s: string)
    requires Sound(u) && forall c | c in s :: 'a' <= c <= 'w'
    ensures IsNormal(u, s)
  {
    forall c | c in s ensures NormalChar(u, c) {
      LatinIsPlain(c);
    }
    if s != [] { assert s[0] in s && s[|s| - 1] in s; }
    forall i | 0 <= i < |s| - 1 ensures s[i] != ' ' { assert s[i] in s; }
  }

  lemma NotInside()
    ensures !Contains("rbocd", "bcd")
  {
    var hay, needle := "rbocd", "bcd";
    assert hay[0..3][0] != needle[0] && hay[1..4][1] != needle[1] && hay[2..5][0] != needle[0];
  }

  lemma NeedleForms()
    ensures FormsOf("bcd") == Forms("bcd", "bcd", "bcd")
  {
    FilterAll("bcd", NotSpace);
    FilterAll("bcd", NotVowel);
  }

  lemma FilterDrops(before: string, c: char, after: string, p: char -> bool)
    requires !p(c) && (forall d | d in before :: p(d)) && (forall d | d in after :: p(d))
    ensures Filter(before + [c] + after, p) == before + after
  {
    FilterOfConcat(before + [c], after, p);
    FilterSnoc(before, c, p);
    FilterAll(before, p);
    FilterAll(after, p);
    assert before + [] == before;
  }

  lemma HayCompact()
    ensures Compact("rbocd") == "rbocd"
  {
    FilterAll("rbocd", NotSpace);
  }

  lemma HaySkeleton()
    ensures Skeleton("rbocd") == "rbcd"
  {
    FilterDrops("rb", 'o', "cd", NotVowel);
    assert "rb" + ['o'] + "cd" == "rbocd" && "rb" + "cd" == "rbcd";
  }

  lemma HayForms()
    ensures FormsOf("rbocd") == Forms("rbocd", "rbocd", "rbcd")
  {
    HayCompact();
    HaySkeleton();
  }

  /** Found by the skeleton alone, somewhere inside. */
  lemma SkeletonOnly(needle: Forms, hay: Forms)
    requires hay.text != [] && !Contains(hay.text, needle.text)
    requires needle.compact != [] && !Contains(hay.compact, needle.compact)
    requires needle.skeleton != [] && LongEnough(needle.skeleton)
    requires Contains(hay.skeleton, needle.skeleton) && !(needle.skeleton <= hay.skeleton)
    ensures FormsScore(needle, hay) == WEAKEST
  {
    TextScorePositive(needle.text, hay.text);
    CompactScorePositive(needle.compact, hay.compact);
    assert needle.skeleton != hay.skeleton;
  }

  lemma WeakForms()
    ensures Found(Forms("bcd", "bcd", "bcd"), Forms("rbocd", "rbocd", "rbcd"))
    ensures FormsScore(Forms("bcd", "bcd", "bcd"), Forms("rbocd", "rbocd", "rbcd")) == WEAKEST
  {
    NotInside();
    ContainsIntro("rbcd", "r", "bcd", []);
    SkeletonOnly(Forms("bcd", "bcd", "bcd"), Forms("rbocd", "rbocd", "rbcd"));
  }

  lemma WeakScore()
    ensures Found(FormsOf("bcd"), FormsOf("rbocd"))
    ensures FormsScore(FormsOf("bcd"), FormsOf("rbocd")) == WEAKEST
  {
    NeedleForms();
    HayForms();
    WeakForms();
  }

  lemma LateScoreLost(scores: seq<nat>)
    requires |scores| == 14 && scores[13] <= 130 && forall i | 0 <= i < 13 :: scores[i] == 0
    ensures Best(scores) == 0
  {
    BestIsGreatest(scores);
  }

  lemma NormalWords(u: Classes)
    requires Sound(u)
    ensures Normalize(u, "bcd") == "bcd" && Normalize(u, "rbocd") == "rbocd" && Normalize(u, "q") == "q"
    ensures IsNormal(u, "bcd")
  {
    NormalAscii(u, "bcd");
    NormalAscii(u, "rbocd");
    NormalAscii(u, "q");
    NormalIsFixed(u, "bcd");
    NormalIsFixed(u, "rbocd");
    NormalIsFixed(u, "q");
  }

  lemma ShorterHay(needle: string, hay: string)
    requires |hay| < |needle|
    ensures !Contains(hay, needle)
  {
  }

  /** A term that holds nothing of the needle. */
  lemma FillerScoresNothing(u: Classes)
    requires Sound(u)
    ensures SearchValueScore(u, "bcd", "q") == 0
  {
    NormalWords(u);
    NeedleForms();
    ScorePositive(u, "bcd", "q");
    ShorterHay("bcd", Compact("q"));
    ShorterHay("bcd", Skeleton(Compact("q")));
  }

  lemma LateMapLost(values: seq<string>, read: string -> nat)
    requires |values| == 14 && read(values[13]) <= 130 && forall i | 0 <= i < 13 :: read(values[i]) == 0
    ensures Best(Map(values, read)) == 0
  {
    LateScoreLost(Map(values, read));
  }

  function LateValues(): seq<string> {
    seq(13, _ => "q") + ["rbocd"]
  }

  lemma LateScores(u: Classes)
    requires SearchValueScore(u, "bcd", "q") == 0 && SearchValueScore(u, "bcd", "rbocd") == WEAKEST
    ensures Best(Map(LateValues(), Scorer(u, "bcd"))) == 0
  {
    LateMapLost(LateValues(), Scorer(u, "bcd"));
  }

  lemma FoundAt(u: Classes, needle: string, values: seq<string>, i: nat, normal: string)
    requires i < |values| && Normalize(u, values[i]) == normal && Found(FormsOf(needle), FormsOf(normal))
    ensures FoundIn(u, needle, values)
  {
  }

  lemma QueryIsBest(u: Classes, query: string, needle: string, values: seq<string>)
    requires Normalize(u, query) == needle && needle != []
    ensures QueryScore(u, query, values) == Best(Map(values, Scorer(u, needle)))
  {
  }

  lemma LateValueScore(u: Classes)
    requires Sound(u)
    ensures SearchValueScore(u, "bcd", "rbocd") == WEAKEST && Found(FormsOf("bcd"), FormsOf(Normalize(u, "rbocd")))
  {
    NormalWords(u);
    WeakScore();
  }

  lemma LastLate()
    ensures |LateValues()| == 14 && LateValues()[13] == "rbocd"
    ensures forall i | 0 <= i < 13 :: LateValues()[i] == "q"
  {
  }

  lemma LateFound(u: Classes)
    requires Sound(u)
    ensures FoundIn(u, "bcd", LateValues())
  {
    LastLate();
    LateValueScore(u);
    FoundAt(u, "bcd", LateValues(), 13, Normalize(u, "rbocd"));
  }

  lemma LateUnscored(u: Classes)
    requires Sound(u) && Normalize(u, "bcd") == "bcd"
    ensures QueryScore(u, "bcd", LateValues()) == 0
  {
    FillerScoresNothing(u);
    LateValueScore(u);
    LateScores(u);
    QueryIsBest(u, "bcd", "bcd", LateValues());
  }

  /** Thirteen is the most: after thirteen terms that do not match, a term found by its skeleton
      alone is lost, though it holds the needle. */
  lemma FourteenthValueLost(u: Classes)
    requires Sound(u)
    ensures forall i | 0 <= i < 13 :: LateValues()[i] == "q"
    ensures FoundIn(u, Normalize(u, "bcd"), LateValues()) && QueryScore(u, "bcd", LateValues()) == 0
  {
    NormalWords(u);
    LastLate();
    LateFound(u);
    LateUnscored(u);
  }
}
