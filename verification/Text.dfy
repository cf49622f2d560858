/** Strings as the Rust source sees them: sequences of Unicode scalar values, with the
    library operations the modelled code relies on (trim, split, lines, contains). */
module Text {

  datatype Option<+T> = None | Some(value: T)

  /** `char::is_whitespace`: the Unicode White_Space property. */
  predicate IsWhite(c: char) {
    var n := c as int;
    || 9 <= n <= 13 || n == 0x20 || n == 0x85 || n == 0xA0 || n == 0x1680
    || 0x2000 <= n <= 0x200A || n == 0x2028 || n == 0x2029 || n == 0x202F
    || n == 0x205F || n == 0x3000
  }

  predicate IsDigit(c: char) {
    '0' <= c <= '9'
  }

  predicate IsAscii(c: char) {
    c < 128 as char
  }

  predicate AllAscii(s: string) {
    forall c | c in s :: IsAscii(c)
  }

  /** The number of bytes of a character in UTF-8. */
  function Utf8Width(c: char): (n: nat)
    ensures 1 <= n <= 4
    ensures n == 1 <==> IsAscii(c)
  {
    var n := c as int;
    if n < 0x80 then 1 else if n < 0x800 then 2 else if n < 0x10000 then 3 else 4
  }

  /** `str::len`: bytes, not characters. */
  function ByteLen(s: string): (n: nat)
    ensures |s| <= n <= 4 * |s|
    ensures n == |s| <==> AllAscii(s)
  {
    if s == [] then 0
    else
      assert s == [s[0]] + s[1..];
      Utf8Width(s[0]) + ByteLen(s[1..])
  }

  /** `to_lowercase` on ASCII letters. */
  function LowerChar(c: char): char {
    if 'A' <= c <= 'Z' then c + 32 as char else c
  }

  function Lower(s: string): (r: string)
    ensures |r| == |s|
  {
    seq(|s|, i requires 0 <= i < |s| => LowerChar(s[i]))
  }

  // ---------------------------------------------------------------- trimming

  function TrimStart(s: string, white: char -> bool): (r: string)
    ensures |r| <= |s|
    ensures r == [] || !white(r[0])
  {
    if s == [] then s else if white(s[0]) then TrimStart(s[1..], white) else s
  }

  function TrimEnd(s: string, white: char -> bool): (r: string)
    ensures |r| <= |s|
    ensures r == [] || !white(r[|r| - 1])
  {
    if s == [] then s
    else if white(s[|s| - 1]) then TrimEnd(s[..|s| - 1], white) else s
  }

  lemma {:induction false} TrimStartCuts(s: string, white: char -> bool) returns (before: string)
    ensures s == before + TrimStart(s, white)
    ensures forall c | c in before :: white(c)
  {
    if s == [] || !white(s[0]) {
      before := [];
    } else {
      var rest := TrimStartCuts(s[1..], white);
      before := [s[0]] + rest;
      assert s == [s[0]] + s[1..];
    }
  }

  lemma {:induction false} TrimEndCuts(s: string, white: char -> bool) returns (after: string)
    ensures s == TrimEnd(s, white) + after
    ensures forall c | c in after :: white(c)
  {
    if s == [] || !white(s[|s| - 1]) {
      after := [];
    } else {
      var rest := TrimEndCuts(s[..|s| - 1], white);
      after := rest + [s[|s| - 1]];
      assert s == s[..|s| - 1] + [s[|s| - 1]];
    }
  }

  /** Trimming splits a string into white ends and a tight middle. */
  lemma TrimCuts(s: string, white: char -> bool) returns (before: string, after: string)
    ensures s == before + TrimWith(s, white) + after
    ensures forall c | c in before + after :: white(c)
    ensures TightFor(TrimWith(s, white), white)
  {
    before := TrimStartCuts(s, white);
    after := TrimEndCuts(TrimStart(s, white), white);
    var start := TrimStart(s, white);
    assert start == TrimWith(s, white) + after;
    if TrimWith(s, white) != [] {
      assert start[0] == TrimWith(s, white)[0];
    }
  }

  function TrimWith(s: string, white: char -> bool): string {
    TrimEnd(TrimStart(s, white), white)
  }

  /** `str::trim`. */
  function Trim(s: string): string {
    TrimWith(s, IsWhite)
  }

  predicate TightFor(s: string, white: char -> bool) {
    s == [] || (!white(s[0]) && !white(s[|s| - 1]))
  }

  predicate Tight(s: string) {
    TightFor(s, IsWhite)
  }

  lemma {:induction false} TrimStartDrops(before: string, rest: string, white: char -> bool)
    requires forall c | c in before :: white(c)
    requires rest == [] || !white(rest[0])
    ensures TrimStart(before + rest, white) == rest
  {
    if before == [] {
      assert before + rest == rest;
    } else {
      var whole := before + rest;
      assert whole[0] == before[0] && before[0] in before;
      assert whole[1..] == before[1..] + rest;
      TrimStartDrops(before[1..], rest, white);
    }
  }

  lemma {:induction false} TrimEndDrops(rest: string, after: string, white: char -> bool)
    requires forall c | c in after :: white(c)
    requires rest == [] || !white(rest[|rest| - 1])
    ensures TrimEnd(rest + after, white) == rest
  {
    if after == [] {
      assert rest + after == rest;
    } else {
      assert after[|after| - 1] in after;
      TrimEndDrops(rest, after[..|after| - 1], white);
      assert (rest + after)[..|rest + after| - 1] == rest + after[..|after| - 1];
    }
  }

  /** What trimming leaves: the one tight middle part. */
  lemma TrimIsMiddle(before: string, s: string, after: string, white: char -> bool)
    requires TightFor(s, white)
    requires forall c | c in before + after :: white(c)
    ensures TrimWith(before + s + after, white) == s
  {
    assert forall c | c in before :: c in before + after;
    assert forall c | c in after :: c in before + after;
    assert before + s + after == before + (s + after);
    if s == [] {
      assert before + (s + after) == (before + after) + [];
      TrimStartDrops(before + after, [], white);
    } else {
      TrimStartDrops(before, s + after, white);
      TrimEndDrops(s, after, white);
    }
  }

  lemma TrimOfTight(s: string, white: char -> bool)
    requires TightFor(s, white)
    ensures TrimWith(s, white) == s
  {
    TrimIsMiddle([], s, [], white);
    assert [] + s + [] == s;
  }

  // --------------------------------------------------------------- substrings

  predicate OccursAt(hay: string, needle: string, i: nat) {
    i + |needle| <= |hay| && hay[i..i + |needle|] == needle
  }

  /** `str::contains`. */
  predicate Contains(hay: string, needle: string) {
    exists i: nat | i <= |hay| :: OccursAt(hay, needle, i)
  }

  lemma ContainsIntro(hay: string, before: string, needle: string, after: string)
    requires hay == before + needle + after
    ensures Contains(hay, needle)
  {
    assert OccursAt(hay, needle, |before|);
  }

  lemma ContainsElim(hay: string, needle: string) returns (before: string, after: string)
    requires Contains(hay, needle)
    ensures hay == before + needle + after
  {
    var i: nat :| i <= |hay| && OccursAt(hay, needle, i);
    before, after := hay[..i], hay[i + |needle|..];
  }

  /** `str::trim_start_matches('/')`. */
  function TrimSlashes(s: string): string {
    TrimStart(s, c => c == '/')
  }

  // ----------------------------------------------------------- split and join

  predicate Free(s: string, c: char) {
    c !in s
  }

  predicate AllFree(parts: seq<string>, c: char) {
    forall i | 0 <= i < |parts| :: Free(parts[i], c)
  }

  /** `str::split(c)`: always at least one part. */
  function Split(s: string, c: char): (parts: seq<string>)
    ensures |parts| >= 1
    ensures AllFree(parts, c)
    ensures |parts| == 1 <==> Free(s, c)
  {
    if s == [] then [[]]
    else
      var rest := Split(s[1..], c);
      assert s == [s[0]] + s[1..];
      if s[0] == c then [[]] + rest
      else
        assert rest[0] in rest;
        [[s[0]] + rest[0]] + rest[1..]
  }

  /** `[String]::join`. */
  function Join(parts: seq<string>, sep: string): string {
    if parts == [] then []
    else if |parts| == 1 then parts[0]
    else parts[0] + sep + Join(parts[1..], sep)
  }

  lemma JoinCons(head: string, tail: seq<string>, sep: string)
    requires tail != []
    ensures Join([head] + tail, sep) == head + sep + Join(tail, sep)
  {
    assert ([head] + tail)[1..] == tail;
  }

  lemma {:induction false} SplitFree(s: string, c: char)
    requires Free(s, c)
    ensures Split(s, c) == [s]
  {
    if s != [] {
      assert s == [s[0]] + s[1..];
      SplitFree(s[1..], c);
    }
  }

  lemma SplitNext(h: char, rest: string, c: char)
    ensures Split([h] + rest, c)
         == if h == c then [[]] + Split(rest, c) else [[h] + Split(rest, c)[0]] + Split(rest, c)[1..]
  {
    assert ([h] + rest)[1..] == rest;
  }

  /** Splitting cuts a text at every separator: what stands before one and behind it split apart. */
  lemma {:induction false} SplitBoth(a: string, c: char, b: string)
    ensures Split(a + [c] + b, c) == Split(a, c) + Split(b, c)
  {
    if a == [] {
      assert a + [c] + b == [c] + b && Split(a, c) == [[]];
      hide *;
      SplitNext(c, b, c);
    } else {
      hide *;
      SplitBoth(a[1..], c, b);
      SplitStep(a[0], a[1..], c, b);
      assert [a[0]] + a[1..] == a;
    }
  }

  lemma SplitStep(h: char, rest: string, c: char, b: string)
    requires Split(rest + [c] + b, c) == Split(rest, c) + Split(b, c)
    ensures Split([h] + rest + [c] + b, c) == Split([h] + rest, c) + Split(b, c)
  {
    hide *;
    assert [h] + rest + [c] + b == [h] + (rest + [c] + b);
    SplitNext(h, rest + [c] + b, c);
    SplitNext(h, rest, c);
    var parts, more := Split(rest, c), Split(b, c);
    PartsTogether([], parts, more);
    PartsTogether([h] + parts[0], parts, more);
  }

  lemma PartsTogether(x: string, parts: seq<string>, more: seq<string>)
    requires parts != []
    ensures [x] + (parts + more) == ([x] + parts) + more && (parts + more)[0] == parts[0]
    ensures [x] + (parts + more)[1..] == ([x] + parts[1..]) + more
  {
    assert (parts + more)[1..] == parts[1..] + more;
  }

  lemma SplitCons(head: string, c: char, tail: string)
    requires Free(head, c)
    ensures Split(head + [c] + tail, c) == [head] + Split(tail, c)
  {
    hide *;
    SplitBoth(head, c, tail);
    SplitFree(head, c);
  }

  lemma JoinGrows(h: char, parts: seq<string>, sep: string)
    requires parts != []
    ensures Join([[h] + parts[0]] + parts[1..], sep) == [h] + Join(parts, sep)
  {
    var grown := [[h] + parts[0]] + parts[1..];
    assert grown[1..] == parts[1..];
    if |parts| > 1 {
      var tail := Join(parts[1..], sep);
      assert ([h] + parts[0]) + sep + tail == [h] + (parts[0] + sep + tail);
    }
  }

  lemma {:induction false} JoinOfSplit(s: string, c: char)
    ensures Join(Split(s, c), [c]) == s
  {
    if s != [] {
      var rest := s[1..];
      assert s == [s[0]] + rest;
      JoinOfSplit(rest, c);
      SplitNext(s[0], rest, c);
      if s[0] == c {
        JoinCons([], Split(rest, c), [c]);
      } else {
        JoinGrows(s[0], Split(rest, c), [c]);
      }
    }
  }

  lemma JoinPastHead(head: string, tail: seq<string>, last: string, sep: string)
    ensures Join([head] + tail + [last], sep) == head + sep + Join(tail + [last], sep)
  {
    assert [head] + tail + [last] == [head] + (tail + [last]);
    JoinCons(head, tail + [last], sep);
  }

  lemma SplitPastHead(head: string, tail: seq<string>, last: string, c: char)
    requires Free(head, c) && Split(Join(tail + [last], [c]), c) == tail + Split(last, c)
    ensures Split(Join([head] + tail + [last], [c]), c) == [head] + tail + Split(last, c)
  {
    JoinPastHead(head, tail, last, [c]);
    SplitCons(head, c, Join(tail + [last], [c]));
  }

  /** The last part may hold the separator. */
  lemma {:induction false} SplitOfJoinLast(front: seq<string>, last: string, c: char)
    requires AllFree(front, c)
    ensures Split(Join(front + [last], [c]), c) == front + Split(last, c)
  {
    if front == [] {
      assert front + [last] == [last];
    } else {
      var head, tail := front[0], front[1..];
      assert front == [head] + tail;
      assert AllFree(tail, c) by { assert forall i | 0 <= i < |tail| :: tail[i] == front[i + 1]; }
      assert Free(head, c);
      SplitOfJoinLast(tail, last, c);
      SplitPastHead(head, tail, last, c);
    }
  }

  function WordLength(s: string): (n: nat)
    ensures n <= |s|
    ensures forall i | 0 <= i < n :: !IsWhite(s[i])
    ensures n == |s| || IsWhite(s[n])
  {
    if s == [] || IsWhite(s[0]) then 0 else 1 + WordLength(s[1..])
  }

  /** `split_whitespace`. */
  function Words(s: string): (ws: seq<string>)
    decreases |s|
  {
    var t := TrimStart(s, IsWhite);
    if t == [] then []
    else
      var n := WordLength(t);
      [t[..n]] + Words(t[n..])
  }

  function StripCr(line: string): string {
    if line != [] && line[|line| - 1] == '\r' then line[..|line| - 1] else line
  }

  function NoEmptyLast(parts: seq<string>): seq<string> {
    if parts != [] && parts[|parts| - 1] == [] then parts[..|parts| - 1] else parts
  }

  lemma NoEmptyLastCons(line: string, parts: seq<string>)
    requires parts != []
    ensures NoEmptyLast([line] + parts) == [line] + NoEmptyLast(parts)
  {
    assert ([line] + parts)[..|parts|] == [line] + parts[..|parts| - 1];
  }

  /** `str::lines`: split at newlines, one carriage return stripped, no empty last line. */
  function Lines(s: string): seq<string> {
    StripAll(NoEmptyLast(Split(s, '\n')))
  }

  function StripAll(parts: seq<string>): seq<string> {
    seq(|parts|, i requires 0 <= i < |parts| => StripCr(parts[i]))
  }

  /** Lines that stay whole: no newline inside, no carriage return at the end. */
  predicate WholeLine(line: string) {
    Free(line, '\n') && (line == [] || line[|line| - 1] != '\r')
  }

  lemma StripAllCons(line: string, parts: seq<string>)
    requires WholeLine(line)
    ensures StripAll([line] + parts) == [line] + StripAll(parts)
  {
  }

  lemma LinesCons(line: string, rest: string)
    requires WholeLine(line)
    ensures Lines(line + "\n" + rest) == [line] + Lines(rest)
  {
    SplitCons(line, '\n', rest);
    NoEmptyLastCons(line, Split(rest, '\n'));
    StripAllCons(line, NoEmptyLast(Split(rest, '\n')));
  }

  lemma LinesOne(line: string)
    requires WholeLine(line) && line != []
    ensures Lines(line) == [line]
  {
    SplitFree(line, '\n');
  }

  lemma TrimTwice(s: string)
    ensures Tight(Trim(s)) && Trim(Trim(s)) == Trim(s)
  {
    var before, after := TrimCuts(s, IsWhite);
    TrimOfTight(Trim(s), IsWhite);
  }
}
