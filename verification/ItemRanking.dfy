/** The three rank functions and `slice_page` of src/erpdb/werka_item_search.rs. */
module ItemRanking {
  import opened Text
  import opened Orders
  import opened Sequences
  import opened SearchText
  import opened ItemSearch

  datatype SupplierItem = SupplierItem(code: string, name: string, uom: string, warehouse: string, itemGroup: string)

  datatype SearchEntry = SearchEntry(item: SupplierItem, searchTerms: seq<string>)

  datatype CustomerItemOption = CustomerItemOption(customerRef: string, customerName: string, customerPhone: string,
                                                   itemCode: string, itemName: string, uom: string, warehouse: string)

  // ------------------------------------------------------------------------- orders

  /** `Ordering::then_with`. */
  function ThenBy<T>(first: (T, T) -> bool, second: (T, T) -> bool): (T, T) -> bool {
    (a: T, b: T) => first(a, b) && (!first(b, a) || second(a, b))
  }

  function TextOrder<T>(key: T -> string): (T, T) -> bool {
    (a: T, b: T) => StrLe(key(a), key(b))
  }

  function Descending<T>(score: T -> nat): (T, T) -> bool {
    (a: T, b: T) => score(b) <= score(a)
  }

  lemma ThenByTotal<T(!new)>(first: (T, T) -> bool, second: (T, T) -> bool)
    requires TotalPreorder(first) && TotalPreorder(second)
    ensures TotalPreorder(ThenBy(first, second))
  {
    var le := ThenBy(first, second);
    forall a, b ensures le(a, b) || le(b, a) {
      assert first(a, b) || first(b, a);
      assert second(a, b) || second(b, a);
    }
    forall a, b, c | le(a, b) && le(b, c) ensures le(a, c) {
      assert first(a, c);
      if first(c, a) {
        assert first(c, b) && first(b, a);
        assert second(a, b) && second(b, c);
      }
    }
  }

  lemma TextOrderTotal<T(!new)>(key: T -> string)
    ensures TotalPreorder(TextOrder(key))
  {
    var le := TextOrder(key);
    forall a, b ensures le(a, b) || le(b, a) {
      StrLeTotal(key(a), key(b));
    }
    forall a, b, c | le(a, b) && le(b, c) ensures le(a, c) {
      StrLeTrans(key(a), key(b), key(c));
    }
  }

  lemma DescendingTotal<T(!new)>(score: T -> nat)
    ensures TotalPreorder(Descending(score))
  {
  }

  // ------------------------------------------------------------------------ ranking

  function Pairing<T, S>(score: T -> S): T -> (T, S) {
    (x: T) => (x, score(x))
  }

  function Second<T, S>(keep: S -> bool): ((T, S)) -> bool {
    (p: (T, S)) => keep(p.1)
  }

  function First<T, S>(p: (T, S)): T {
    p.0
  }

  function KeptItem<T, S>(score: T -> S, keep: S -> bool): T -> bool {
    (x: T) => keep(score(x))
  }

  /** Score, keep the matching ones, sort by score and keys, drop the scores. */
  function Ranked<T, S>(items: seq<T>, score: T -> S, keep: S -> bool, le: ((T, S), (T, S)) -> bool): seq<T> {
    Map(SortBy(Filter(Map(items, Pairing(score)), Second(keep)), le), First)
  }

  lemma FilterPairs<T, S>(items: seq<T>, score: T -> S, keep: S -> bool)
    ensures Filter(Map(items, Pairing(score)), Second(keep))
         == Map(Filter(items, KeptItem(score, keep)), Pairing(score))
  {
    FilterOfMap(items, Pairing(score), Second(keep), KeptItem(score, keep));
  }

  /** A ranking holds exactly the matching items, each as often as it was listed. */
  lemma RankedHolds<T, S>(items: seq<T>, score: T -> S, keep: S -> bool, le: ((T, S), (T, S)) -> bool)
    ensures multiset(Ranked(items, score, keep, le)) == multiset(Filter(items, KeptItem(score, keep)))
  {
    var kept := Filter(items, KeptItem(score, keep));
    var pairs := Map(kept, Pairing(score));
    FilterPairs(items, score, keep);
    SortByPermutes(pairs, le);
    MapPermutes(SortBy(pairs, le), pairs, First);
    assert Map(pairs, First) == kept;
  }

  /** A ranking is in order of the items' own scores and keys. */
  lemma RankedInOrder<T(!new), S(!new)>(items: seq<T>, score: T -> S, keep: S -> bool, le: ((T, S), (T, S)) -> bool)
    requires TotalPreorder(le)
    ensures var r := Ranked(items, score, keep, le);
            forall i, j | 0 <= i < j < |r| :: le((r[i], score(r[i])), (r[j], score(r[j])))
  {
    var pairs := Map(Filter(items, KeptItem(score, keep)), Pairing(score));
    FilterPairs(items, score, keep);
    SortByPermutes(pairs, le);
    SortBySorted(pairs, le);
    var sorted, r := SortBy(pairs, le), Ranked(items, score, keep, le);
    forall i | 0 <= i < |r| ensures sorted[i] == (r[i], score(r[i])) {
      assert sorted[i] in multiset(sorted);
      assert sorted[i] in pairs;
    }
  }

  /** `normalized_cmp_key`. */
  function CompareKey(u: Classes, value: string): string {
    Map(Trim(value), u.lower)
  }

  predicate Positive(score: nat) {
    score > 0
  }

  // --------------------------------------------------------- items of a supplier

  function ItemTerms(item: SupplierItem): seq<string> {
    [item.code, item.name]
  }

  function ItemScore(u: Classes, query: string): SupplierItem -> nat {
    (item: SupplierItem) => QueryScore(u, query, ItemTerms(item))
  }

  function NameKey<S>(u: Classes): ((SupplierItem, S)) -> string {
    (p: (SupplierItem, S)) => CompareKey(u, p.0.name)
  }

  function CodeKey<S>(u: Classes): ((SupplierItem, S)) -> string {
    (p: (SupplierItem, S)) => CompareKey(u, p.0.code)
  }

  function PairScore<T>(): ((T, nat)) -> nat {
    (p: (T, nat)) => p.1
  }

  function ItemOrder(u: Classes): ((SupplierItem, nat), (SupplierItem, nat)) -> bool {
    ThenBy(Descending(PairScore()), ThenBy(TextOrder(NameKey(u)), TextOrder(CodeKey(u))))
  }

  lemma ItemOrderTotal(u: Classes)
    ensures TotalPreorder(ItemOrder(u))
  {
    DescendingTotal<(SupplierItem, nat)>(PairScore());
    TextOrderTotal<(SupplierItem, nat)>(NameKey(u));
    TextOrderTotal<(SupplierItem, nat)>(CodeKey(u));
    ThenByTotal<(SupplierItem, nat)>(TextOrder(NameKey(u)), TextOrder(CodeKey(u)));
    ThenByTotal<(SupplierItem, nat)>(Descending(PairScore()), ThenBy(TextOrder(NameKey(u)), TextOrder(CodeKey(u))));
  }

  /** `rank_supplier_items_by_query`. */
  function RankSupplierItems(u: Classes, items: seq<SupplierItem>, query: string): seq<SupplierItem> {
    if Trim(query) == [] then items else Ranked(items, ItemScore(u, query), Positive, ItemOrder(u))
  }

  /** One key decides, and the rest only when it ties. */
  predicate KeyThen(a: string, b: string, rest: bool) {
    StrLe(a, b) && (a == b ==> rest)
  }

  lemma KeyThenIs(a: string, b: string, rest: bool)
    requires StrLe(a, b) && (!StrLe(b, a) || rest)
    ensures KeyThen(a, b, rest)
  {
    StrLeTotal(a, b);
    StrLeRefl(a);
  }

  /** A text as orders see it: lowered, without the white space around it. */
  function Shown(u: Classes, value: string): (shown: string)
    ensures |shown| == |Trim(value)| && forall i | 0 <= i < |shown| :: shown[i] == u.lower(Trim(value)[i])
  {
    CompareKey(u, value)
  }

  /** Name before code. */
  predicate NamedBefore(u: Classes, a: SupplierItem, b: SupplierItem) {
    KeyThen(Shown(u, a.name), Shown(u, b.name), StrLe(Shown(u, a.code), Shown(u, b.code)))
  }

  /** The order of a ranking: better score, then name, then code. */
  predicate ItemBefore(u: Classes, query: string, a: SupplierItem, b: SupplierItem) {
    var x, y := QueryScore(u, query, [a.code, a.name]), QueryScore(u, query, [b.code, b.name]);
    x > y || (x == y && NamedBefore(u, a, b))
  }

  /** An item a query keeps: every one when nothing is left of the query, otherwise one whose
      code or name holds it. */
  predicate ItemMatches(u: Classes, query: string, item: SupplierItem) {
    Normalize(u, query) == [] || FoundIn(u, Normalize(u, query), [item.code, item.name])
  }

  lemma ItemKept(u: Classes, query: string, item: SupplierItem)
    requires Sound(u)
    ensures KeptItem(ItemScore(u, query), Positive)(item) <==> ItemMatches(u, query, item)
  {
    if Normalize(u, query) != [] { QueryPositive(u, query, [item.code, item.name]); }
  }

  lemma ItemOrderMeans(u: Classes, query: string, a: SupplierItem, b: SupplierItem)
    requires ItemOrder(u)((a, ItemScore(u, query)(a)), (b, ItemScore(u, query)(b)))
    ensures ItemBefore(u, query, a, b)
  {
    if ItemScore(u, query)(a) == ItemScore(u, query)(b) {
      KeyThenIs(CompareKey(u, a.name), CompareKey(u, b.name), StrLe(CompareKey(u, a.code), CompareKey(u, b.code)));
    }
  }

  function Matching(u: Classes, query: string): SupplierItem -> bool {
    (item: SupplierItem) => ItemMatches(u, query, item)
  }

  /** Ranking keeps exactly the matching items and puts them in order; a blank query changes
      nothing, and one of punctuation alone keeps every item. */
  lemma SupplierRanking(u: Classes, items: seq<SupplierItem>, query: string)
    requires Sound(u)
    ensures Trim(query) == [] ==> RankSupplierItems(u, items, query) == items
    ensures Trim(query) != [] ==>
      multiset(RankSupplierItems(u, items, query)) == multiset(Filter(items, Matching(u, query)))
    ensures Trim(query) != [] ==>
      var r := RankSupplierItems(u, items, query);
      forall i, j | 0 <= i < j < |r| :: ItemBefore(u, query, r[i], r[j])
  {
    if Trim(query) != [] {
      RankedHolds(items, ItemScore(u, query), Positive, ItemOrder(u));
      forall x | x in multiset(items) ensures KeptItem(ItemScore(u, query), Positive)(x) == Matching(u, query)(x) {
        ItemKept(u, query, x);
      }
      FilterAgrees(items, KeptItem(ItemScore(u, query), Positive), Matching(u, query));
      ItemOrderTotal(u);
      RankedInOrder(items, ItemScore(u, query), Positive, ItemOrder(u));
      var r := RankSupplierItems(u, items, query);
      forall i, j | 0 <= i < j < |r| ensures ItemBefore(u, query, r[i], r[j]) {
        ItemOrderMeans(u, query, r[i], r[j]);
      }
    }
  }

  // -------------------------------------------------- items with their customers' names

  function EntryScore(u: Classes, query: string): SearchEntry -> nat {
    (entry: SearchEntry) => QueryScore(u, query, entry.searchTerms)
  }

  function EntryNameKey(u: Classes): ((SearchEntry, nat)) -> string {
    (p: (SearchEntry, nat)) => CompareKey(u, p.0.item.name)
  }

  function EntryCodeKey(u: Classes): ((SearchEntry, nat)) -> string {
    (p: (SearchEntry, nat)) => CompareKey(u, p.0.item.code)
  }

  function EntryOrder(u: Classes): ((SearchEntry, nat), (SearchEntry, nat)) -> bool {
    ThenBy(Descending(PairScore()), ThenBy(TextOrder(EntryNameKey(u)), TextOrder(EntryCodeKey(u))))
  }

  function ItemOf(entry: SearchEntry): SupplierItem {
    entry.item
  }

  function RankedEntries(u: Classes, entries: seq<SearchEntry>, query: string): seq<SearchEntry> {
    Ranked(entries, EntryScore(u, query), Positive, EntryOrder(u))
  }

  /** `rank_customer_item_entries_by_query`. */
  function RankCustomerEntries(u: Classes, entries: seq<SearchEntry>, query: string): seq<SupplierItem> {
    if Trim(query) == [] then Map(entries, ItemOf) else Map(RankedEntries(u, entries, query), ItemOf)
  }

  predicate EntryBefore(u: Classes, query: string, a: SearchEntry, b: SearchEntry) {
    var x, y := QueryScore(u, query, a.searchTerms), QueryScore(u, query, b.searchTerms);
    x > y || (x == y && NamedBefore(u, a.item, b.item))
  }

  lemma EntryOrderTotal(u: Classes)
    ensures TotalPreorder(EntryOrder(u))
  {
    DescendingTotal<(SearchEntry, nat)>(PairScore());
    TextOrderTotal(EntryNameKey(u));
    TextOrderTotal(EntryCodeKey(u));
    ThenByTotal(TextOrder(EntryNameKey(u)), TextOrder(EntryCodeKey(u)));
    ThenByTotal<(SearchEntry, nat)>(Descending(PairScore()),
                                    ThenBy(TextOrder(EntryNameKey(u)), TextOrder(EntryCodeKey(u))));
  }

  lemma EntryOrderMeans(u: Classes, query: string, a: SearchEntry, b: SearchEntry)
    requires EntryOrder(u)((a, EntryScore(u, query)(a)), (b, EntryScore(u, query)(b)))
    ensures EntryBefore(u, query, a, b)
  {
    if EntryScore(u, query)(a) == EntryScore(u, query)(b) {
      KeyThenIs(CompareKey(u, a.item.name), CompareKey(u, b.item.name),
                StrLe(CompareKey(u, a.item.code), CompareKey(u, b.item.code)));
    }
  }

  /** The ranked entries are in order of score, then name, then code. */
  lemma CustomerRankingInOrder(u: Classes, entries: seq<SearchEntry>, query: string)
    ensures var r := RankedEntries(u, entries, query);
            forall i, j | 0 <= i < j < |r| :: EntryBefore(u, query, r[i], r[j])
  {
    var r, score := RankedEntries(u, entries, query), EntryScore(u, query);
    EntryOrderTotal(u);
    RankedInOrder(entries, score, Positive, EntryOrder(u));
    forall i, j | 0 <= i < j < |r| ensures EntryBefore(u, query, r[i], r[j]) {
      EntryOrderMeans(u, query, r[i], r[j]);
    }
  }

  /** An entry is kept when one of its terms scores more than ten times its place. */
  predicate EntryKept(u: Classes, query: string, entry: SearchEntry) {
    || Normalize(u, query) == []
    || exists i :: 0 <= i < |entry.searchTerms|
         && SearchValueScore(u, Normalize(u, query), entry.searchTerms[i]) > STEP * i
  }

  function KeptEntries(u: Classes, query: string): SearchEntry -> bool {
    (entry: SearchEntry) => EntryKept(u, query, entry)
  }

  lemma EntryKeptIs(u: Classes, query: string, entry: SearchEntry)
    ensures KeptItem(EntryScore(u, query), Positive)(entry) == KeptEntries(u, query)(entry)
  {
    if Normalize(u, query) != [] { QueryPositiveAnywhere(u, query, entry.searchTerms); }
  }

  /** With at most thirteen terms an entry is kept exactly when one of them holds the query. */
  lemma ShortEntryKept(u: Classes, query: string, entry: SearchEntry)
    requires Sound(u) && Normalize(u, query) != [] && |entry.searchTerms| <= 13
    ensures EntryKept(u, query, entry) <==> FoundIn(u, Normalize(u, query), entry.searchTerms)
  {
    QueryPositive(u, query, entry.searchTerms);
    QueryPositiveAnywhere(u, query, entry.searchTerms);
  }

  /** Exactly those entries' items are in the ranking. */
  lemma CustomerRanking(u: Classes, entries: seq<SearchEntry>, query: string)
    requires Trim(query) != []
    ensures multiset(RankCustomerEntries(u, entries, query))
         == multiset(Map(Filter(entries, KeptEntries(u, query)), ItemOf))
  {
    var score := EntryScore(u, query);
    RankedHolds(entries, score, Positive, EntryOrder(u));
    forall x | x in multiset(entries) ensures KeptItem(score, Positive)(x) == KeptEntries(u, query)(x) {
      EntryKeptIs(u, query, x);
    }
    FilterAgrees(entries, KeptItem(score, Positive), KeptEntries(u, query));
    MapPermutes(Ranked(entries, score, Positive, EntryOrder(u)), Filter(entries, KeptEntries(u, query)), ItemOf);
  }

  // -------------------------------------------------------- items offered to a customer

  datatype OptionScore = OptionScore(item: nat, customer: nat)

  type ScoredOption = (CustomerItemOption, OptionScore)

  function ScoreOption(u: Classes, query: string): CustomerItemOption -> OptionScore {
    (o: CustomerItemOption) => OptionScore(QueryScore(u, query, [o.itemCode, o.itemName]),
                                           QueryScore(u, query, [o.customerName, o.customerRef, o.customerPhone]))
  }

  predicate EitherPositive(score: OptionScore) {
    score.item > 0 || score.customer > 0
  }

  function ByItemScore(): ScoredOption -> nat {
    (p: ScoredOption) => p.1.item
  }

  function ByCustomerScore(): ScoredOption -> nat {
    (p: ScoredOption) => p.1.customer
  }

  function ItemNameKey(u: Classes): ScoredOption -> string {
    (p: ScoredOption) => CompareKey(u, p.0.itemName)
  }

  function CustomerNameKey(u: Classes): ScoredOption -> string {
    (p: ScoredOption) => CompareKey(u, p.0.customerName)
  }

  function ItemCodeKey(u: Classes): ScoredOption -> string {
    (p: ScoredOption) => CompareKey(u, p.0.itemCode)
  }

  function OptionNames(u: Classes): (ScoredOption, ScoredOption) -> bool {
    ThenBy(TextOrder(ItemNameKey(u)), ThenBy(TextOrder(CustomerNameKey(u)), TextOrder(ItemCodeKey(u))))
  }

  function OptionOrder(u: Classes): (ScoredOption, ScoredOption) -> bool {
    ThenBy(Descending(ByItemScore()), ThenBy(Descending(ByCustomerScore()), OptionNames(u)))
  }

  lemma OptionOrderTotal(u: Classes)
    ensures TotalPreorder(OptionOrder(u))
  {
    TextOrderTotal(ItemNameKey(u));
    TextOrderTotal(CustomerNameKey(u));
    TextOrderTotal(ItemCodeKey(u));
    ThenByTotal(TextOrder(CustomerNameKey(u)), TextOrder(ItemCodeKey(u)));
    ThenByTotal(TextOrder(ItemNameKey(u)), ThenBy(TextOrder(CustomerNameKey(u)), TextOrder(ItemCodeKey(u))));
    DescendingTotal(ByCustomerScore());
    DescendingTotal(ByItemScore());
    ThenByTotal(Descending(ByCustomerScore()), OptionNames(u));
    ThenByTotal(Descending(ByItemScore()), ThenBy(Descending(ByCustomerScore()), OptionNames(u)));
  }

  /** `rank_customer_item_options_by_query`. */
  function RankOptions(u: Classes, items: seq<CustomerItemOption>, query: string): seq<CustomerItemOption> {
    if Trim(query) == [] then items else Ranked(items, ScoreOption(u, query), EitherPositive, OptionOrder(u))
  }

  predicate OptionMatches(u: Classes, query: string, o: CustomerItemOption) {
    var needle := Normalize(u, query);
    || needle == []
    || FoundIn(u, needle, [o.itemCode, o.itemName])
    || FoundIn(u, needle, [o.customerName, o.customerRef, o.customerPhone])
  }

  function MatchingOptions(u: Classes, query: string): CustomerItemOption -> bool {
    (o: CustomerItemOption) => OptionMatches(u, query, o)
  }

  predicate NamesBefore(u: Classes, a: CustomerItemOption, b: CustomerItemOption) {
    KeyThen(CompareKey(u, a.itemName), CompareKey(u, b.itemName),
            KeyThen(CompareKey(u, a.customerName), CompareKey(u, b.customerName),
                    StrLe(CompareKey(u, a.itemCode), CompareKey(u, b.itemCode))))
  }

  /** A better item score comes first, among equal ones a better customer score, then the item's
      name, the customer's name and the item's code. */
  predicate OptionBefore(u: Classes, a: ScoredOption, b: ScoredOption) {
    || a.1.item > b.1.item
    || (a.1.item == b.1.item && a.1.customer > b.1.customer)
    || (a.1 == b.1 && NamesBefore(u, a.0, b.0))
  }

  lemma OptionKept(u: Classes, query: string, o: CustomerItemOption)
    requires Sound(u)
    ensures KeptItem(ScoreOption(u, query), EitherPositive)(o) <==> OptionMatches(u, query, o)
  {
    if Normalize(u, query) != [] {
      QueryPositive(u, query, [o.itemCode, o.itemName]);
      QueryPositive(u, query, [o.customerName, o.customerRef, o.customerPhone]);
    }
  }

  lemma OptionNamesMean(u: Classes, a: ScoredOption, b: ScoredOption)
    requires OptionNames(u)(a, b)
    ensures NamesBefore(u, a.0, b.0)
  {
    var codes := StrLe(CompareKey(u, a.0.itemCode), CompareKey(u, b.0.itemCode));
    var later := KeyThen(CompareKey(u, a.0.customerName), CompareKey(u, b.0.customerName), codes);
    if StrLe(CompareKey(u, b.0.itemName), CompareKey(u, a.0.itemName)) {
      KeyThenIs(CompareKey(u, a.0.customerName), CompareKey(u, b.0.customerName), codes);
    }
    KeyThenIs(CompareKey(u, a.0.itemName), CompareKey(u, b.0.itemName), later);
  }

  lemma OptionOrderMeans(u: Classes, a: ScoredOption, b: ScoredOption)
    requires OptionOrder(u)(a, b)
    ensures OptionBefore(u, a, b)
  {
    assert a.1.item >= b.1.item;
    if a.1.item == b.1.item {
      assert a.1.customer >= b.1.customer;
      if a.1.customer == b.1.customer { OptionNamesMean(u, a, b); }
    }
  }

  lemma OptionsInOrder(u: Classes, items: seq<CustomerItemOption>, score: CustomerItemOption -> OptionScore)
    ensures var r := Ranked(items, score, EitherPositive, OptionOrder(u));
            forall i, j | 0 <= i < j < |r| :: OptionBefore(u, (r[i], score(r[i])), (r[j], score(r[j])))
  {
    var r := Ranked(items, score, EitherPositive, OptionOrder(u));
    OptionOrderTotal(u);
    RankedInOrder(items, score, EitherPositive, OptionOrder(u));
    forall i, j | 0 <= i < j < |r| ensures OptionBefore(u, (r[i], score(r[i])), (r[j], score(r[j]))) {
      OptionOrderMeans(u, (r[i], score(r[i])), (r[j], score(r[j])));
    }
  }

  /** The ranking keeps exactly the options whose item or customer holds the query, and lists them
      by item score, customer score and the three names. */
  lemma OptionRanking(u: Classes, items: seq<CustomerItemOption>, query: string)
    requires Sound(u) && Trim(query) != []
    ensures multiset(RankOptions(u, items, query)) == multiset(Filter(items, MatchingOptions(u, query)))
    ensures var r, score := RankOptions(u, items, query), ScoreOption(u, query);
            forall i, j | 0 <= i < j < |r| :: OptionBefore(u, (r[i], score(r[i])), (r[j], score(r[j])))
  {
    var score := ScoreOption(u, query);
    RankedHolds(items, score, EitherPositive, OptionOrder(u));
    forall x | x in multiset(items) ensures KeptItem(score, EitherPositive)(x) == MatchingOptions(u, query)(x) {
      OptionKept(u, query, x);
    }
    FilterAgrees(items, KeptItem(score, EitherPositive), MatchingOptions(u, query));
    OptionsInOrder(u, items, score);
  }

  // ---------------------------------------------------------------------------- pages

  /** `slice_page`; a limit of zero means no limit. */
  function SlicePage<T>(items: seq<T>, offset: nat, limit: nat): seq<T> {
    if offset >= |items| then []
    else items[offset..if limit > 0 && offset + limit < |items| then offset + limit else |items|]
  }

  function Pages<T>(items: seq<T>, limit: nat, count: nat): seq<seq<T>> {
    seq(count, k requires 0 <= k < count => SlicePage(items, k * limit, limit))
  }

  function Reach<T>(items: seq<T>, n: nat): (r: nat)
    ensures r <= |items|
  {
    if n < |items| then n else |items|
  }

  lemma PageAfter<T>(items: seq<T>, start: nat, limit: nat)
    requires limit > 0
    ensures items[..Reach(items, start)] + SlicePage(items, start, limit) == items[..Reach(items, start + limit)]
  {
  }

  lemma PagesNext<T>(items: seq<T>, limit: nat, count: nat)
    ensures Pages(items, limit, count + 1) == Pages(items, limit, count) + [SlicePage(items, count * limit, limit)]
  {
  }

  lemma FlattenSnoc<T>(parts: seq<seq<T>>, part: seq<T>)
    ensures Flatten(parts + [part]) == Flatten(parts) + part
  {
    assert (parts + [part])[..|parts|] == parts;
  }

  lemma NextStart(limit: nat, count: nat)
    ensures (count + 1) * limit == count * limit + limit
  {
  }

  /** Pages of a positive size, taken one after the other, are the list from its start: nothing
      twice and nothing missing. */
  lemma {:induction false} PagesCover<T>(items: seq<T>, limit: nat, count: nat)
    requires limit > 0
    ensures Flatten(Pages(items, limit, count)) == items[..Reach(items, count * limit)]
  {
    if count != 0 {
      var last := count - 1;
      PagesCover(items, limit, last);
      PagesNext(items, limit, last);
      FlattenSnoc(Pages(items, limit, last), SlicePage(items, last * limit, limit));
      PageAfter(items, last * limit, limit);
      NextStart(limit, last);
    }
  }
}
