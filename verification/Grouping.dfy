/** The grouping fold shared by the breakdowns: entries of a map updated in place
    (src/erpdb/werka_status_breakdown.rs, src/erpdb/supplier_read.rs). */
module Grouping {
  import opened Text
  import opened Orders
  import opened Sequences

  /** What a record contributes to its group. */
  datatype Line = Line(key: string, ref: string, name: string, uom: string, sent: real, accepted: real)

  datatype Entry = Entry(
    ref: string, name: string, uom: string,
    count: nat, totalSent: real, totalAccepted: real, totalReturned: real)

  function Returned(line: Line): real {
    if line.sent - line.accepted >= 0.0 then line.sent - line.accepted else 0.0
  }

  // ------------------------------------------------------------- sums and groups

  function SentOf(): Line -> real { (line: Line) => line.sent }
  function AcceptedOf(): Line -> real { (line: Line) => line.accepted }
  function ReturnedOf(): Line -> real { (line: Line) => Returned(line) }

  function GroupOf(lines: seq<Line>, key: string): (group: seq<Line>)
    ensures |group| <= |lines|
    ensures forall l :: l in group <==> l in lines && l.key == key
  {
    if lines == [] then []
    else
      var last := lines[|lines| - 1];
      assert lines == lines[..|lines| - 1] + [last];
      GroupOf(lines[..|lines| - 1], key) + (if last.key == key then [last] else [])
  }

  function HasKey(key: string): Line -> bool {
    (line: Line) => line.key == key
  }

  lemma {:induction false} GroupOfIsFilter(lines: seq<Line>, key: string)
    ensures GroupOf(lines, key) == Filter(lines, HasKey(key))
  {
    if lines != [] { GroupOfIsFilter(lines[..|lines| - 1], key); }
  }

  predicate Blank(uom: string) {
    Trim(uom) == []
  }

  /** The unit an entry ends with: the first one that is not blank, else the last. */
  function UomOf(group: seq<Line>): string
    requires group != []
  {
    if |group| == 1 || !Blank(group[0].uom) then group[0].uom else UomOf(group[1..])
  }

  /** The meaning of an entry: its first line, the number of its lines, and three sums. */
  function EntryOf(group: seq<Line>): Entry
    requires group != []
  {
    Entry(group[0].ref, group[0].name, UomOf(group), |group|,
          Sum(group, SentOf()), Sum(group, AcceptedOf()), Sum(group, ReturnedOf()))
  }

  function NewEntry(line: Line): Entry {
    Entry(line.ref, line.name, line.uom, 0, 0.0, 0.0, 0.0)
  }

  /** The in-place update of an entry. */
  function AddTo(entry: Entry, line: Line): Entry {
    Entry(entry.ref, entry.name, if Blank(entry.uom) then line.uom else entry.uom, entry.count + 1,
          entry.totalSent + line.sent, entry.totalAccepted + line.accepted, entry.totalReturned + Returned(line))
  }

  lemma {:induction false} UomOfSnoc(group: seq<Line>, line: Line)
    requires group != []
    ensures UomOf(group + [line]) == if Blank(UomOf(group)) then line.uom else UomOf(group)
  {
    if |group| > 1 && Blank(group[0].uom) {
      UomOfSnoc(group[1..], line);
      assert (group + [line])[1..] == group[1..] + [line];
    } else {
      assert (group + [line])[0] == group[0];
      assert (group + [line])[1..] == group[1..] + [line];
      if Blank(group[0].uom) { assert (group + [line])[1..] == [line]; }
    }
  }

  /** An entry ends with a unit as soon as one of its lines has one. */
  lemma {:induction false} UomOfSome(group: seq<Line>)
    requires group != []
    ensures Blank(UomOf(group)) <==> forall line | line in group :: Blank(line.uom)
  {
    assert group == [group[0]] + group[1..];
    if |group| > 1 && Blank(group[0].uom) { UomOfSome(group[1..]); }
  }

  lemma TightBlank(uom: string)
    requires Tight(uom)
    ensures Blank(uom) <==> uom == ""
  {
    TrimOfTight(uom, IsWhite);
  }

  /** The unit is the first line's exactly when the first line has one or no line has. */
  lemma UomIsFirst(group: seq<Line>)
    requires group != [] && forall line | line in group :: Tight(line.uom)
    ensures Tight(UomOf(group))
    ensures UomOf(group) == group[0].uom
       <==> !Blank(group[0].uom) || forall line | line in group :: Blank(line.uom)
  {
    UomOfSome(group);
    UomIsListed(group);
    assert group[0] in group;
    TightBlank(group[0].uom);
    TightBlank(UomOf(group));
  }

  lemma {:induction false} UomIsListed(group: seq<Line>)
    requires group != []
    ensures exists line :: line in group && line.uom == UomOf(group)
  {
    if |group| == 1 || !Blank(group[0].uom) {
      assert group[0] in group;
    } else {
      UomIsListed(group[1..]);
      assert group == [group[0]] + group[1..];
    }
  }

  lemma EntryOfSnoc(group: seq<Line>, line: Line)
    ensures EntryOf(group + [line]) == AddTo(if group == [] then NewEntry(line) else EntryOf(group), line)
  {
    SumSnoc(group, line, SentOf());
    SumSnoc(group, line, AcceptedOf());
    SumSnoc(group, line, ReturnedOf());
    if group != [] { UomOfSnoc(group, line); }
  }

  // ------------------------------------------------------------- the ordered map

  /** A BTreeMap: its keys in order and the entry of each. */
  datatype Grouped = Grouped(keys: seq<string>, entries: map<string, Entry>)

  function StrOrdering(): (string, string) -> bool {
    (a, b) => StrLe(a, b)
  }

  /** The distinct keys in order. */
  function KeysOf(lines: seq<Line>): (keys: seq<string>)
    ensures forall k :: k in keys <==> exists l :: l in lines && l.key == k
  {
    if lines == [] then []
    else
      var init, last := lines[..|lines| - 1], lines[|lines| - 1];
      assert lines == init + [last];
      var keys := KeysOf(init);
      InsertSortedPermutes(last.key, keys, StrOrdering());
      MembersOfInsert(last.key, keys);
      if last.key in keys then keys else InsertSorted(last.key, keys, StrOrdering())
  }

  lemma MembersOfInsert(x: string, keys: seq<string>)
    ensures forall k :: k in InsertSorted(x, keys, StrOrdering()) <==> k == x || k in keys
  {
    InsertSortedPermutes(x, keys, StrOrdering());
    forall k ensures k in InsertSorted(x, keys, StrOrdering()) <==> k == x || k in keys {
      assert k in InsertSorted(x, keys, StrOrdering()) <==> k in multiset(InsertSorted(x, keys, StrOrdering()));
    }
  }

  /** The map the lines build. */
  ghost predicate Holds(grouped: Grouped, lines: seq<Line>) {
    && grouped.keys == KeysOf(lines)
    && SameKeys(grouped)
    && EntriesHold(grouped.entries, lines)
  }

  ghost predicate SameKeys(grouped: Grouped) {
    forall k :: k in grouped.entries <==> k in grouped.keys
  }

  ghost predicate EntriesHold(entries: map<string, Entry>, lines: seq<Line>) {
    forall k | k in entries :: EntryHolds(entries[k], lines, k)
  }

  ghost predicate EntryHolds(entry: Entry, lines: seq<Line>, key: string) {
    GroupOf(lines, key) != [] && entry == EntryOf(GroupOf(lines, key))
  }

  lemma GroupOfSnoc(lines: seq<Line>, line: Line, key: string)
    ensures line.key == key ==> GroupOf(lines + [line], key) == GroupOf(lines, key) + [line]
    ensures line.key != key ==> GroupOf(lines + [line], key) == GroupOf(lines, key)
  {
    assert (lines + [line])[..|lines|] == lines;
  }

  lemma KeysOfSnoc(lines: seq<Line>, line: Line)
    ensures KeysOf(lines + [line])
         == if line.key in KeysOf(lines) then KeysOf(lines) else InsertSorted(line.key, KeysOf(lines), StrOrdering())
    ensures forall k :: k in KeysOf(lines + [line]) <==> k == line.key || k in KeysOf(lines)
  {
    assert (lines + [line])[..|lines|] == lines;
    MembersOfInsert(line.key, KeysOf(lines));
  }

  function Updated(grouped: Grouped, line: Line): Grouped {
    if line.key in grouped.entries then
      Grouped(grouped.keys, grouped.entries[line.key := AddTo(grouped.entries[line.key], line)])
    else
      Grouped(InsertSorted(line.key, grouped.keys, StrOrdering()),
              grouped.entries[line.key := AddTo(NewEntry(line), line)])
  }

  lemma EntryUpdated(grouped: Grouped, line: Line, lines: seq<Line>)
    requires Holds(grouped, lines)
    ensures EntryHolds(Updated(grouped, line).entries[line.key], lines + [line], line.key)
  {
    NewGroupIsEmpty(lines, line.key);
    GroupOfSnoc(lines, line, line.key);
    EntryOfSnoc(GroupOf(lines, line.key), line);
  }

  lemma EntryKept(entry: Entry, line: Line, lines: seq<Line>, key: string)
    requires EntryHolds(entry, lines, key) && key != line.key
    ensures EntryHolds(entry, lines + [line], key)
  {
    GroupOfSnoc(lines, line, key);
  }

  lemma KeysUpdated(grouped: Grouped, line: Line, lines: seq<Line>)
    requires grouped.keys == KeysOf(lines) && SameKeys(grouped)
    ensures Updated(grouped, line).keys == KeysOf(lines + [line]) && SameKeys(Updated(grouped, line))
  {
    KeysOfSnoc(lines, line);
  }

  lemma EntriesUpdated(entries: map<string, Entry>, entry: Entry, line: Line, lines: seq<Line>)
    requires EntriesHold(entries, lines) && EntryHolds(entry, lines + [line], line.key)
    ensures EntriesHold(entries[line.key := entry], lines + [line])
  {
    var updated := entries[line.key := entry];
    forall k | k in updated ensures EntryHolds(updated[k], lines + [line], k) {
      if k != line.key { EntryKept(entries[k], line, lines, k); }
    }
  }

  lemma UpdatedHolds(grouped: Grouped, line: Line, lines: seq<Line>)
    requires Holds(grouped, lines)
    ensures Holds(Updated(grouped, line), lines + [line])
  {
    KeysUpdated(grouped, line, lines);
    EntryUpdated(grouped, line, lines);
    EntriesUpdated(grouped.entries, Updated(grouped, line).entries[line.key], line, lines);
  }

  function CountAt(grouped: Grouped, key: string): nat {
    if key in grouped.entries then grouped.entries[key].count else 0
  }

  /** Sent, accepted and returned so far. */
  function TotalsAt(grouped: Grouped, key: string): (real, real, real) {
    if key in grouped.entries then
      (grouped.entries[key].totalSent, grouped.entries[key].totalAccepted, grouped.entries[key].totalReturned)
    else (0.0, 0.0, 0.0)
  }

  /** The other keys keep their entries; the line's key gains one count and the line's quantities. */
  ghost predicate OnlyGains(before: Grouped, after: Grouped, line: Line) {
    && (forall k | k != line.key :: k in before.entries <==> k in after.entries)
    && (forall k | k != line.key && k in before.entries :: after.entries[k] == before.entries[k])
    && CountAt(after, line.key) == CountAt(before, line.key) + 1
    && var (sent, accepted, returned) := TotalsAt(before, line.key);
       TotalsAt(after, line.key) == (sent + line.sent, accepted + line.accepted, returned + Returned(line))
  }

  lemma UpdatedGains(grouped: Grouped, line: Line)
    ensures OnlyGains(grouped, Updated(grouped, line), line)
  {
  }

  /** `entry(key).or_insert_with(..)` followed by the updates of the entry. */
  method UpdateEntry(grouped: Grouped, line: Line) returns (after: Grouped)
    ensures after == Updated(grouped, line)
  {
    var keys, entries := grouped.keys, grouped.entries;
    if line.key !in entries {
      keys := InsertSorted(line.key, keys, StrOrdering());
      entries := entries[line.key := NewEntry(line)];
    }
    entries := entries[line.key := AddTo(entries[line.key], line)];
    after := Grouped(keys, entries);
  }

  /** The map of some lines becomes the map of one line more. */
  method AddLine(grouped: Grouped, line: Line, ghost lines: seq<Line>) returns (after: Grouped)
    requires Holds(grouped, lines)
    ensures Holds(after, lines + [line])
    ensures OnlyGains(grouped, after, line)
  {
    after := UpdateEntry(grouped, line);
    UpdatedHolds(grouped, line, lines);
    UpdatedGains(grouped, line);
  }

  lemma NewGroupIsEmpty(lines: seq<Line>, key: string)
    ensures GroupOf(lines, key) == [] <==> key !in KeysOf(lines)
  {
    if GroupOf(lines, key) != [] { assert GroupOf(lines, key)[0] in GroupOf(lines, key); }
    if key in KeysOf(lines) {
      var l :| l in lines && l.key == key;
      assert l in GroupOf(lines, key);
    }
  }

  // ---------------------------------------------------------------- the listing

  /** More receipts first, then the lowered name. */
  predicate EntryLe(a: Entry, b: Entry) {
    a.count > b.count || (a.count == b.count && StrLe(Lower(a.name), Lower(b.name)))
  }

  function EntryOrdering(): (Entry, Entry) -> bool {
    (a, b) => EntryLe(a, b)
  }

  function Values(keys: seq<string>, entries: map<string, Entry>): seq<Entry>
    requires forall k | k in keys :: k in entries
  {
    seq(|keys|, i requires 0 <= i < |keys| => entries[keys[i]])
  }

  function GroupEntries(keys: seq<string>, lines: seq<Line>): (r: seq<Entry>)
    requires forall k | k in keys :: GroupOf(lines, k) != []
    ensures |r| == |keys|
  {
    seq(|keys|, i requires 0 <= i < |keys| => EntryOf(GroupOf(lines, keys[i])))
  }

  lemma KeysHaveGroups(lines: seq<Line>)
    ensures forall k | k in KeysOf(lines) :: GroupOf(lines, k) != []
  {
    forall k | k in KeysOf(lines) ensures GroupOf(lines, k) != [] { NewGroupIsEmpty(lines, k); }
  }

  /** The breakdown of some lines: one entry per key, in order. */
  function Breakdown(lines: seq<Line>): seq<Entry> {
    KeysHaveGroups(lines);
    SortBy(GroupEntries(KeysOf(lines), lines), EntryOrdering())
  }

  lemma ValueIsGroup(grouped: Grouped, lines: seq<Line>, i: nat)
    requires Holds(grouped, lines) && i < |grouped.keys|
    ensures grouped.keys[i] in grouped.entries && EntryHolds(grouped.entries[grouped.keys[i]], lines, grouped.keys[i])
  {
    assert grouped.keys[i] in grouped.keys;
  }

  lemma ListedGroups(keys: seq<string>, entries: map<string, Entry>, lines: seq<Line>)
    requires forall i | 0 <= i < |keys| :: keys[i] in entries && EntryHolds(entries[keys[i]], lines, keys[i])
    ensures forall k | k in keys :: k in entries && GroupOf(lines, k) != []
    ensures Values(keys, entries) == GroupEntries(keys, lines)
  {
  }

  lemma ValuesAreGroups(grouped: Grouped, lines: seq<Line>)
    requires Holds(grouped, lines)
    ensures forall k | k in grouped.keys :: k in grouped.entries && GroupOf(lines, k) != []
    ensures Values(grouped.keys, grouped.entries) == GroupEntries(KeysOf(lines), lines)
  {
    forall i | 0 <= i < |grouped.keys|
      ensures grouped.keys[i] in grouped.entries && EntryHolds(grouped.entries[grouped.keys[i]], lines, grouped.keys[i])
    {
      ValueIsGroup(grouped, lines, i);
    }
    ListedGroups(grouped.keys, grouped.entries, lines);
  }

  /** `into_values` and the sort. */
  method ListEntries(grouped: Grouped, ghost lines: seq<Line>) returns (result: seq<Entry>)
    requires Holds(grouped, lines)
    ensures result == Breakdown(lines) && LargestFirst(result)
  {
    ValuesAreGroups(grouped, lines);
    result := SortBy(Values(grouped.keys, grouped.entries), EntryOrdering());
    BreakdownFacts(lines);
  }

  lemma EntryPreorder()
    ensures TotalPreorder(EntryOrdering())
  {
    forall a: Entry, b: Entry ensures EntryLe(a, b) || EntryLe(b, a) { StrLeTotal(Lower(a.name), Lower(b.name)); }
    forall a: Entry, b: Entry, c: Entry | EntryLe(a, b) && EntryLe(b, c) ensures EntryLe(a, c) {
      if StrLe(Lower(a.name), Lower(b.name)) && StrLe(Lower(b.name), Lower(c.name)) {
        StrLeTrans(Lower(a.name), Lower(b.name), Lower(c.name));
      }
    }
  }

  /** The listing's order, as the rule has it: larger groups first, and groups of one size by their
      lowered names. */
  ghost predicate LargestFirst(entries: seq<Entry>) {
    forall i, j | 0 <= i < j < |entries| :: Precedes(entries[i], entries[j])
  }

  ghost predicate Precedes(a: Entry, b: Entry) {
    a.count > b.count || (a.count == b.count && Ascends(Lower(a.name), Lower(b.name)))
  }

  /** The sort's comparison is that rule. */
  lemma LargestFirstIs(entries: seq<Entry>)
    ensures SortedBy(entries, EntryOrdering()) <==> LargestFirst(entries)
  {
    forall i, j | 0 <= i < j < |entries|
      ensures EntryOrdering()(entries[i], entries[j]) <==> Precedes(entries[i], entries[j])
    {
      StrLeIs(Lower(entries[i].name), Lower(entries[j].name));
    }
  }

  lemma BreakdownFacts(lines: seq<Line>)
    ensures forall k | k in KeysOf(lines) :: GroupOf(lines, k) != []
    ensures multiset(Breakdown(lines)) == multiset(GroupEntries(KeysOf(lines), lines))
    ensures SortedBy(Breakdown(lines), EntryOrdering()) && LargestFirst(Breakdown(lines))
  {
    KeysHaveGroups(lines);
    EntryPreorder();
    SortByPermutes(GroupEntries(KeysOf(lines), lines), EntryOrdering());
    SortBySorted(GroupEntries(KeysOf(lines), lines), EntryOrdering());
    LargestFirstIs(Breakdown(lines));
  }

  // ---------------------------------------------------------------- conservation

  lemma {:induction false} SumSplits(group: seq<Line>)
    ensures Sum(group, AcceptedOf()) + Sum(group, ReturnedOf()) >= Sum(group, SentOf())
    ensures Sum(group, SentOf()) == Sum(group, AcceptedOf()) + Sum(group, ReturnedOf())
       <==> forall l | l in group :: l.accepted <= l.sent
  {
    if group != [] {
      var init, last := group[..|group| - 1], group[|group| - 1];
      SumSplits(init);
      assert group == init + [last];
    }
  }

  /** An entry's sent total is accepted plus returned exactly when no line accepts more than it sent. */
  lemma EntryConserves(group: seq<Line>)
    requires group != []
    ensures var e := EntryOf(group);
            e.totalSent == e.totalAccepted + e.totalReturned <==> forall l | l in group :: l.accepted <= l.sent
  {
    SumSplits(group);
  }

  function Counts(entries: seq<Entry>): nat {
    if entries == [] then 0 else Counts(entries[..|entries| - 1]) + entries[|entries| - 1].count
  }

  function GroupSizes(keys: seq<string>, lines: seq<Line>): nat {
    if keys == [] then 0 else GroupSizes(keys[..|keys| - 1], lines) + |GroupOf(lines, keys[|keys| - 1])|
  }

  lemma {:induction false} DistinctInsert(x: string, keys: seq<string>)
    requires Distinct(keys) && x !in keys
    ensures Distinct(InsertSorted(x, keys, StrOrdering()))
  {
    if keys != [] && !StrLe(x, keys[0]) {
      var rest := keys[1..];
      assert keys[0] !in rest;
      DistinctInsert(x, rest);
      MembersOfInsert(x, rest);
    }
  }

  lemma {:induction false} KeysDistinct(lines: seq<Line>)
    ensures Distinct(KeysOf(lines))
  {
    if lines != [] {
      var init := lines[..|lines| - 1];
      KeysDistinct(init);
      if lines[|lines| - 1].key !in KeysOf(init) { DistinctInsert(lines[|lines| - 1].key, KeysOf(init)); }
    }
  }

  lemma {:induction false} OneMoreLine(keys: seq<string>, lines: seq<Line>, line: Line)
    requires Distinct(keys)
    ensures GroupSizes(keys, lines + [line]) == GroupSizes(keys, lines) + if line.key in keys then 1 else 0
  {
    assert (lines + [line])[..|lines|] == lines;
    if keys != [] {
      var init, last := keys[..|keys| - 1], keys[|keys| - 1];
      assert keys == init + [last];
      OneMoreLine(init, lines, line);
      assert last !in init;
    }
  }

  lemma {:induction false} NoLines(keys: seq<string>)
    ensures GroupSizes(keys, []) == 0
  {
    if keys != [] { NoLines(keys[..|keys| - 1]); }
  }

  /** Groups over all the keys hold every line once. */
  lemma {:induction false} GroupsPartition(keys: seq<string>, lines: seq<Line>)
    requires Distinct(keys) && forall l | l in lines :: l.key in keys
    ensures GroupSizes(keys, lines) == |lines|
  {
    if lines == [] {
      NoLines(keys);
    } else {
      var init, last := lines[..|lines| - 1], lines[|lines| - 1];
      assert lines == init + [last];
      GroupsPartition(keys, init);
      OneMoreLine(keys, init, last);
    }
  }

  lemma GroupEntriesSnoc(keys: seq<string>, lines: seq<Line>)
    requires keys != [] && forall k | k in keys :: GroupOf(lines, k) != []
    ensures forall k | k in keys[..|keys| - 1] :: GroupOf(lines, k) != []
    ensures var init, last := keys[..|keys| - 1], keys[|keys| - 1];
            var entries := GroupEntries(keys, lines);
            entries[..|keys| - 1] == GroupEntries(init, lines) && entries[|keys| - 1].count == |GroupOf(lines, last)|
  {
    assert forall k | k in keys[..|keys| - 1] :: k in keys;
  }

  lemma {:induction false} CountsAreSizes(keys: seq<string>, lines: seq<Line>)
    requires forall k | k in keys :: GroupOf(lines, k) != []
    ensures Counts(GroupEntries(keys, lines)) == GroupSizes(keys, lines)
  {
    if keys != [] {
      var init := keys[..|keys| - 1];
      GroupEntriesSnoc(keys, lines);
      CountsAreSizes(init, lines);
    }
  }

  lemma {:induction false} CountsSnocInsert(x: Entry, s: seq<Entry>)
    ensures Counts(InsertSorted(x, s, EntryOrdering())) == x.count + Counts(s)
  {
    if s == [] {
      assert [x][..0] == [];
    } else if EntryLe(x, s[0]) {
      CountsCons(x, s);
    } else {
      CountsSnocInsert(x, s[1..]);
      CountsCons(s[0], InsertSorted(x, s[1..], EntryOrdering()));
      CountsCons(s[0], s[1..]);
      assert s == [s[0]] + s[1..];
    }
  }

  lemma {:induction false} CountsCons(x: Entry, s: seq<Entry>)
    ensures Counts([x] + s) == x.count + Counts(s)
  {
    if s == [] {
      assert ([x] + s)[..0] == [];
    } else {
      CountsCons(x, s[..|s| - 1]);
      assert ([x] + s)[..|s|] == [x] + s[..|s| - 1];
    }
  }

  lemma {:induction false} CountsOfSort(s: seq<Entry>)
    ensures Counts(SortBy(s, EntryOrdering())) == Counts(s)
  {
    if s != [] {
      CountsOfSort(s[1..]);
      CountsSnocInsert(s[0], SortBy(s[1..], EntryOrdering()));
      CountsCons(s[0], s[1..]);
      assert s == [s[0]] + s[1..];
    }
  }

  /** The counts of a breakdown sum to the number of its lines. */
  lemma CountsSumToLines(lines: seq<Line>)
    ensures Counts(Breakdown(lines)) == |lines|
  {
    KeysHaveGroups(lines);
    KeysDistinct(lines);
    GroupsPartition(KeysOf(lines), lines);
    CountsAreSizes(KeysOf(lines), lines);
    CountsOfSort(GroupEntries(KeysOf(lines), lines));
  }
}
