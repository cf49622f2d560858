/** The home screen: pending list and counters in Rust (src/erpdb/werka_home.rs,
    src/erpdb/werka_pending.rs, src/erpdb/werka_summary.rs) and the queries that replace them
    (src/erpdb/reader_pending_sql.rs, src/erpdb/reader_sql.rs). */
module WerkaPending {
  import opened Text
  import opened Orders
  import opened Sequences
  import opened Remarks
  import Markers
  import opened WerkaRecords
  import opened WerkaBreakdown
  import opened WerkaDetails

  datatype Summary = Summary(pending: nat, confirmed: nat, returned: nat)

  datatype HomeData = HomeData(summary: Summary, pendingItems: seq<Record>)

  // ------------------------------------------------------------------ specification

  /** The status a row counts under, when it is shown at all. */
  function ShownStatus(row: Row): Option<Status> {
    match row
    case OfReceipt(r) => if ReceiptIncluded(r) then Some(ReceiptStatus(r)) else None
    case OfDelivery(d) => if DeliveryVisible(d) then Some(DeliveryStatus(d)) else None
  }

  function ShownAs(kind: Kind): Row -> bool {
    row => ShownStatus(row).Some? && StatusOfKind(ShownStatus(row).value, kind)
  }

  function SummaryOf(rows: seq<Row>): Summary {
    Summary(|Filter(rows, ShownAs(PendingKind))|,
            |Filter(rows, ShownAs(ConfirmedKind))|, |Filter(rows, ShownAs(ReturnedKind))|)
  }

  function PendingOf(row: Row): Option<Record> {
    if ShownAs(PendingKind)(row) then Some(RecordOf(row)) else None
  }

  /** The pending records in the order of the rows. */
  function PendingFound(rows: seq<Row>): seq<Record> {
    Somes(Map(rows, PendingOf))
  }

  function Newest(records: seq<Record>): seq<Record> {
    SortBy(records, LabelOrdering())
  }

  function Cut<T>(s: seq<T>, limit: nat): seq<T> {
    if limit > 0 && |s| > limit then s[..limit] else s
  }

  /** Sort, then cut. */
  function PendingList(rows: seq<Row>, limit: nat): seq<Record> {
    Cut(Newest(PendingFound(rows)), limit)
  }

  /** Cut, then sort: the home screen stops collecting at its limit. */
  function HomeItems(rows: seq<Row>, limit: nat): seq<Record> {
    Newest(Cut(PendingFound(rows), limit))
  }

  // --------------------------------------------------------------------- the loops

  function CountStatus(summary: Summary, status: Status): Summary {
    match status
    case Pending => summary.(pending := summary.pending + 1)
    case Draft => summary.(pending := summary.pending + 1)
    case Accepted => summary.(confirmed := summary.confirmed + 1)
    case Partial => summary.(returned := summary.returned + 1)
    case Rejected => summary.(returned := summary.returned + 1)
    case Cancelled => summary.(returned := summary.returned + 1)
  }

  lemma CountStatusIs(summary: Summary, status: Status)
    ensures CountStatus(summary, status)
         == Summary(summary.pending + (if StatusOfKind(status, PendingKind) then 1 else 0),
                    summary.confirmed + (if StatusOfKind(status, ConfirmedKind) then 1 else 0),
                    summary.returned + (if StatusOfKind(status, ReturnedKind) then 1 else 0))
  {
  }

  /** A classified row: the status it is shown with, if it is shown, and its record. */
  datatype Shown = Shown(status: Option<Status>, record: Record)

  function ShowReceipt(r: Receipt): Shown {
    Shown(if ReceiptIncluded(r) then Some(ReceiptStatus(r)) else None, ReceiptToRecord(r))
  }

  function ShowDelivery(d: DeliveryNote): Shown {
    Shown(if DeliveryVisible(d) then Some(DeliveryStatus(d)) else None, DeliveryToRecord(d))
  }

  function ShowRow(row: Row): Shown {
    Shown(ShownStatus(row), RecordOf(row))
  }

  function CountsAs(kind: Kind): Shown -> bool {
    (shown: Shown) => shown.status.Some? && StatusOfKind(shown.status.value, kind)
  }

  function RecordIn(shown: Shown): Record {
    shown.record
  }

  function CountsOf(all: seq<Shown>): Summary {
    Summary(|Filter(all, CountsAs(PendingKind))|,
            |Filter(all, CountsAs(ConfirmedKind))|, |Filter(all, CountsAs(ReturnedKind))|)
  }

  function FoundIn(all: seq<Shown>): seq<Record> {
    Map(Filter(all, CountsAs(PendingKind)), RecordIn)
  }

  lemma ShownReceipts(receipts: seq<Receipt>)
    ensures Map(receipts, ShowReceipt) == Map(Map(receipts, ReceiptRow()), ShowRow)
  {
    forall r | r in receipts ensures ShowReceipt(r) == ShowRow(ReceiptRow()(r)) { ShownAlike(r); }
    MapOfMap(receipts, ReceiptRow(), ShowRow, ShowReceipt);
  }

  lemma ShownDeliveries(deliveries: seq<DeliveryNote>)
    ensures Map(deliveries, ShowDelivery) == Map(Map(deliveries, DeliveryRow()), ShowRow)
  {
    forall d | d in deliveries ensures ShowDelivery(d) == ShowRow(DeliveryRow()(d)) { ShownAlikeToo(d); }
    MapOfMap(deliveries, DeliveryRow(), ShowRow, ShowDelivery);
  }

  /** The receipts' loop, then the delivery notes'. */
  lemma ShownTogether(receipts: seq<Receipt>, deliveries: seq<DeliveryNote>)
    ensures [] + Map(receipts, ShowReceipt) + Map(deliveries, ShowDelivery)
         == Map(RowsOf(receipts, deliveries), ShowRow)
  {
    ShownReceipts(receipts);
    ShownDeliveries(deliveries);
    MapOfConcat(Map(receipts, ReceiptRow()), Map(deliveries, DeliveryRow()), ShowRow);
    NothingInFront(Map(receipts, ShowReceipt));
  }

  lemma NothingInFront(all: seq<Shown>)
    ensures [] + all == all
  {
  }

  lemma NothingShown(limit: nat)
    ensures CountsOf([]) == Summary(0, 0, 0) && FoundIn([]) == [] && Cut<Record>([], limit) == []
  {
  }

  lemma ShownAlike(r: Receipt)
    ensures ShowRow(OfReceipt(r)) == ShowReceipt(r)
  {
  }

  lemma ShownAlikeToo(d: DeliveryNote)
    ensures ShowRow(OfDelivery(d)) == ShowDelivery(d)
  {
  }

  lemma ResultOfLoops(receipts: seq<Receipt>, deliveries: seq<DeliveryNote>)
    ensures var all := [] + Map(receipts, ShowReceipt) + Map(deliveries, ShowDelivery);
            && CountsOf(all) == SummaryOf(RowsOf(receipts, deliveries))
            && FoundIn(all) == PendingFound(RowsOf(receipts, deliveries))
  {
    ShownTogether(receipts, deliveries);
    CountsOfRows(RowsOf(receipts, deliveries));
    FoundOfRows(RowsOf(receipts, deliveries));
  }

  lemma CountsOfRows(rows: seq<Row>)
    ensures CountsOf(Map(rows, ShowRow)) == SummaryOf(rows)
  {
    CountOfRows(rows, PendingKind);
    CountOfRows(rows, ConfirmedKind);
    CountOfRows(rows, ReturnedKind);
  }

  lemma CountOfRows(rows: seq<Row>, kind: Kind)
    ensures |Filter(Map(rows, ShowRow), CountsAs(kind))| == |Filter(rows, ShownAs(kind))|
  {
    FilterOfMap(rows, ShowRow, CountsAs(kind), ShownAs(kind));
  }

  lemma FoundOfRows(rows: seq<Row>)
    ensures FoundIn(Map(rows, ShowRow)) == PendingFound(rows)
  {
    FilterOfMap(rows, ShowRow, CountsAs(PendingKind), ShownAs(PendingKind));
    MapOfMap(Filter(rows, ShownAs(PendingKind)), ShowRow, RecordIn, RecordOf);
    SomesOfFilter(rows, ShownAs(PendingKind), RecordOf, PendingOf);
  }

  lemma {:induction false} SomesOfFilter(rows: seq<Row>, p: Row -> bool, f: Row -> Record, found: Row -> Option<Record>)
    requires forall row :: found(row) == if p(row) then Some(f(row)) else None
    ensures Somes(Map(rows, found)) == Map(Filter(rows, p), f)
  {
    if rows != [] {
      var init, row := rows[..|rows| - 1], rows[|rows| - 1];
      SomesOfFilter(init, p, f, found);
      SomesSnoc(Map(init, found), found(row));
      MapOfConcat(Filter(init, p), if p(row) then [row] else [], f);
    }
  }

  lemma Grows(before: seq<Shown>, part: seq<Shown>, i: nat)
    requires i < |part|
    ensures before + part[..i + 1] == (before + part[..i]) + [part[i]]
  {
  }

  lemma CountsNext(all: seq<Shown>, shown: Shown)
    ensures CountsOf(all + [shown])
         == if shown.status.Some? then CountStatus(CountsOf(all), shown.status.value) else CountsOf(all)
  {
    FilterSnoc(all, shown, CountsAs(PendingKind));
    FilterSnoc(all, shown, CountsAs(ConfirmedKind));
    FilterSnoc(all, shown, CountsAs(ReturnedKind));
    if shown.status.Some? { CountStatusIs(CountsOf(all), shown.status.value); }
  }

  lemma FoundNext(all: seq<Shown>, shown: Shown)
    ensures FoundIn(all + [shown]) == FoundIn(all) + if CountsAs(PendingKind)(shown) then [shown.record] else []
  {
    FilterSnoc(all, shown, CountsAs(PendingKind));
    MapOfConcat(Filter(all, CountsAs(PendingKind)), if CountsAs(PendingKind)(shown) then [shown] else [], RecordIn);
  }

  /** One of the two loops that count. */
  method CountShown(summary: Summary, part: seq<Shown>, ghost before: seq<Shown>) returns (after: Summary)
    requires summary == CountsOf(before)
    ensures after == CountsOf(before + part)
  {
    after := summary;
    assert before + part[..0] == before;
    for i := 0 to |part|
      invariant after == CountsOf(before + part[..i])
    {
      Grows(before, part, i);
      CountsNext(before + part[..i], part[i]);
      if part[i].status.Some? { after := CountStatus(after, part[i].status.value); }
    }
    assert part[..|part|] == part;
  }

  /** `build_werka_summary`. */
  method BuildWerkaSummary(receipts: seq<Receipt>, deliveries: seq<DeliveryNote>) returns (summary: Summary)
    ensures summary == SummaryOf(RowsOf(receipts, deliveries))
  {
    NothingShown(0);
    summary := CountShown(Summary(0, 0, 0), Map(receipts, ShowReceipt), []);
    summary := CountShown(summary, Map(deliveries, ShowDelivery), [] + Map(receipts, ShowReceipt));
    ResultOfLoops(receipts, deliveries);
  }

  /** One of the two loops that collect. A visible delivery note is never a draft, so one test
      serves both. */
  method CollectShown(found: seq<Record>, part: seq<Shown>, ghost before: seq<Shown>) returns (after: seq<Record>)
    requires found == FoundIn(before)
    ensures after == FoundIn(before + part)
  {
    after := found;
    assert before + part[..0] == before;
    for i := 0 to |part|
      invariant after == FoundIn(before + part[..i])
    {
      Grows(before, part, i);
      FoundNext(before + part[..i], part[i]);
      if CountsAs(PendingKind)(part[i]) { after := after + [part[i].record]; }
    }
    assert part[..|part|] == part;
  }

  /** `build_werka_pending`: two loops, the sort and the cut. */
  method BuildWerkaPending(receipts: seq<Receipt>, deliveries: seq<DeliveryNote>, limit: nat)
    returns (result: seq<Record>)
    ensures result == PendingList(RowsOf(receipts, deliveries), limit) && NewestLabelsFirst(result)
  {
    NothingShown(limit);
    result := CollectShown([], Map(receipts, ShowReceipt), []);
    result := CollectShown(result, Map(deliveries, ShowDelivery), [] + Map(receipts, ShowReceipt));
    ResultOfLoops(receipts, deliveries);
    SortedByLabel(result);
    result := SortBy(result, LabelOrdering());
    if limit > 0 && |result| > limit { result := result[..limit]; }
  }

  /** One more row on the home screen: counted when shown, listed when pending and there is room. */
  lemma HomeNext(all: seq<Shown>, shown: Shown, limit: nat)
    ensures Cut(FoundIn(all + [shown]), limit)
         == Cut(FoundIn(all), limit)
            + if CountsAs(PendingKind)(shown) && (limit == 0 || |Cut(FoundIn(all), limit)| < limit)
               then [shown.record] else []
  {
    FoundNext(all, shown);
  }

  /** One of the two loops of the home screen: counting goes on after the list is full. */
  method CollectHome(summary: Summary, items: seq<Record>, part: seq<Shown>, limit: nat, ghost before: seq<Shown>)
    returns (counts: Summary, list: seq<Record>)
    requires summary == CountsOf(before) && items == Cut(FoundIn(before), limit)
    ensures counts == CountsOf(before + part) && list == Cut(FoundIn(before + part), limit)
  {
    counts, list := summary, items;
    assert before + part[..0] == before;
    for i := 0 to |part|
      invariant counts == CountsOf(before + part[..i])
      invariant list == Cut(FoundIn(before + part[..i]), limit)
    {
      Grows(before, part, i);
      CountsNext(before + part[..i], part[i]);
      HomeNext(before + part[..i], part[i], limit);
      if part[i].status.Some? {
        counts := CountStatus(counts, part[i].status.value);
        if StatusOfKind(part[i].status.value, PendingKind) && (limit == 0 || |list| < limit) {
          list := list + [part[i].record];
        }
      }
    }
    assert part[..|part|] == part;
  }

  /** `build_werka_home`. */
  method BuildWerkaHome(receipts: seq<Receipt>, deliveries: seq<DeliveryNote>, limit: nat) returns (data: HomeData)
    ensures data == HomeData(SummaryOf(RowsOf(receipts, deliveries)), HomeItems(RowsOf(receipts, deliveries), limit))
    ensures NewestLabelsFirst(data.pendingItems)
  {
    NothingShown(limit);
    var summary, items := CollectHome(Summary(0, 0, 0), [], Map(receipts, ShowReceipt), limit, []);
    summary, items := CollectHome(summary, items, Map(deliveries, ShowDelivery), limit,
                                  [] + Map(receipts, ShowReceipt));
    ResultOfLoops(receipts, deliveries);
    // The source's closing truncate never has anything to cut: the list stopped growing at its limit.
    SortedByLabel(items);
    data := HomeData(summary, Newest(items));
  }

  // ----------------------------------------------------------- home against pending

  lemma FoundIsCounted(rows: seq<Row>)
    ensures |PendingFound(rows)| == SummaryOf(rows).pending
  {
    FoundOfRows(rows);
    CountsOfRows(rows);
  }

  /** Nothing that is found after the limit is newer than anything found before it. */
  ghost predicate NewestFirst(found: seq<Record>, limit: nat) {
    forall i, j | 0 <= i < limit <= j < |found| :: Ascends(found[j].createdLabel, found[i].createdLabel)
  }

  /** Sorting two parts of which no record of the second is newer sorts them one after the other. */
  lemma {:induction false} SortParts<T(!new)>(a: seq<T>, b: seq<T>, le: (T, T) -> bool)
    requires TotalPreorder(le) && forall x, y | x in a && y in b :: le(x, y)
    ensures SortBy(a + b, le) == SortBy(a, le) + SortBy(b, le)
  {
    if a == [] {
      assert a + b == b;
    } else {
      assert a == [a[0]] + a[1..] && (a + b)[1..] == a[1..] + b;
      SortParts(a[1..], b, le);
      SortByPermutes(b, le);
      forall y | y in SortBy(b, le) ensures le(a[0], y) { assert y in multiset(SortBy(b, le)) && y in b; }
      InsertInFront(a[0], SortBy(a[1..], le), SortBy(b, le), le);
    }
  }

  lemma {:induction false} InsertInFront<T(!new)>(x: T, u: seq<T>, v: seq<T>, le: (T, T) -> bool)
    requires forall y | y in v :: le(x, y)
    ensures InsertSorted(x, u + v, le) == InsertSorted(x, u, le) + v
  {
    if u == [] {
      assert u + v == v;
    } else {
      assert (u + v)[1..] == u[1..] + v;
      InsertInFront(x, u[1..], v, le);
    }
  }

  lemma CutBySort(found: seq<Record>, limit: nat)
    requires limit <= |found| && NewestFirst(found, limit)
    ensures Newest(found)[..limit] == Newest(found[..limit])
  {
    var a, b := found[..limit], found[limit..];
    assert found == a + b;
    LabelPreorder();
    forall x, y | x in a && y in b ensures LabelOrdering()(x, y) {
      var i :| 0 <= i < |a| && a[i] == x;
      var j :| 0 <= j < |b| && b[j] == y;
      StrLeIs(found[limit + j].createdLabel, found[i].createdLabel);
    }
    SortParts(a, b, LabelOrdering());
    SortByPermutes(a, LabelOrdering());
    assert |multiset(Newest(a))| == |multiset(a)|;
  }

  lemma RestOf(sorted: seq<Record>, found: seq<Record>, limit: nat)
    requires multiset(sorted) == multiset(found) && limit <= |found| && |sorted| == |found|
    requires multiset(sorted[..limit]) == multiset(found[..limit])
    ensures multiset(sorted[limit..]) == multiset(found[limit..])
  {
    TwoParts(sorted, limit);
    TwoParts(found, limit);
    forall x ensures multiset(sorted[limit..])[x] == multiset(found[limit..])[x] {
      assert multiset(sorted)[x] == multiset(sorted[..limit])[x] + multiset(sorted[limit..])[x];
      assert multiset(found)[x] == multiset(found[..limit])[x] + multiset(found[limit..])[x];
    }
  }

  lemma TwoParts(s: seq<Record>, n: nat)
    requires n <= |s|
    ensures multiset(s) == multiset(s[..n]) + multiset(s[n..])
  {
    assert s == s[..n] + s[n..];
  }

  lemma CutSortsFirst(found: seq<Record>, limit: nat)
    requires limit <= |found| && multiset(Newest(found)[..limit]) == multiset(found[..limit])
    ensures NewestFirst(found, limit)
  {
    var sorted := Newest(found);
    LabelPreorder();
    SortByPermutes(found, LabelOrdering());
    SortBySorted(found, LabelOrdering());
    assert |multiset(sorted)| == |multiset(found)|;
    RestOf(sorted, found, limit);
    forall i, j | 0 <= i < limit <= j < |found| ensures Ascends(found[j].createdLabel, found[i].createdLabel) {
      assert found[i] == found[..limit][i] && found[j] == found[limit..][j - limit];
      assert found[i] in multiset(found[..limit]) && found[j] in multiset(found[limit..]);
      var k :| 0 <= k < limit && sorted[..limit][k] == found[i];
      var l :| 0 <= l < |sorted| - limit && sorted[limit..][l] == found[j];
      assert LabelOrdering()(sorted[k], sorted[limit + l]);
      StrLeIs(found[j].createdLabel, found[i].createdLabel);
    }
  }

  /** The home list is the pending list exactly when there is no limit, or nothing is cut, or no
      pending row fetched past the limit is newer than one fetched before it. Both always have as
      many records as the limit and the pending counter allow. */
  lemma HomeListsPending(rows: seq<Row>, limit: nat)
    ensures HomeItems(rows, limit) == PendingList(rows, limit)
       <==> limit == 0 || SummaryOf(rows).pending <= limit || NewestFirst(PendingFound(rows), limit)
    ensures |HomeItems(rows, limit)| == |PendingList(rows, limit)|
    ensures |HomeItems(rows, limit)|
         == if limit > 0 && SummaryOf(rows).pending > limit then limit else SummaryOf(rows).pending
  {
    var found := PendingFound(rows);
    FoundIsCounted(rows);
    if limit > 0 && |found| > limit {
      SortByPermutes(found[..limit], LabelOrdering());
      if NewestFirst(found, limit) { CutBySort(found, limit); }
      if Newest(found)[..limit] == Newest(found[..limit]) { CutSortsFirst(found, limit); }
    }
  }

  // ------------------------------------------------------------------- pending query

  function SqlPendingSelect(row: Row): Option<Record> {
    match row
    case OfReceipt(r) =>
      if r.docStatus == 0 && !LikeState(r.remarks, "pending") then
        Some(SqlPendingReceipt(r))
      else None
    case OfDelivery(d) =>
      // NOT IN is never true of NULL.
      if d.docStatus == 1 && d.flowState == Some(1) && d.customerState.Some? && d.customerState.value !in {2, 3, 4} then
        Some(SqlPendingDelivery(d))
      else None
  }

  ghost predicate IsSqlPending(result: seq<Record>, table: seq<Row>) {
    multiset(result) == multiset(Somes(Map(table, SqlPendingSelect))) && NewestLabelsFirst(result)
  }

  /** Documents are drafts, submitted or cancelled. */
  predicate KnownDocStatus(r: Receipt) {
    r.docStatus == 0 || r.docStatus == 1 || r.docStatus == 2
  }

  function SqlPendingReceipt(r: Receipt): Record {
    Record(r.name, PurchaseReceiptRecord, SqlTrim(r.supplier), SqlTrim(r.supplierName),
           SqlTrim(r.itemCode), SqlTrim(r.itemName), SqlTrim(r.uom),
           SqlSent(r), 0.0, r.amount, SqlTrim(r.currency),
           if SqlStatusIs(r.status, "draft") then Draft else Pending, SqlTrim(r.postingDate))
  }

  function SqlPendingDelivery(d: DeliveryNote): Record {
    Record(d.name, DeliveryNoteRecord, SqlTrim(d.customer), SqlTrim(d.customerName),
           SqlTrim(d.itemCode), SqlTrim(d.itemName), SqlTrim(d.uom),
           d.qty, 0.0, 0.0, "", Pending, SqlTrim(d.modified))
  }

  /** The query shows the name as it is stored and trims the other texts. */
  predicate PendingReceiptTexts(r: Receipt) {
    && Tight(r.name) && BlankEnds(r.supplier) && BlankEnds(r.supplierName) && BlankEnds(r.itemCode)
    && BlankEnds(r.itemName) && BlankEnds(r.uom) && BlankEnds(r.currency) && BlankEnds(r.postingDate)
  }

  predicate PendingDeliveryTexts(d: DeliveryNote) {
    && Tight(d.name) && BlankEnds(d.customer) && BlankEnds(d.customerName) && BlankEnds(d.itemCode)
    && BlankEnds(d.itemName) && BlankEnds(d.uom) && BlankEnds(d.modified)
  }

  /** A status that Rust reads as Draft is read so by the query. */
  predicate DraftAlike(r: Receipt) {
    SameAsciiText(Trim(r.status), "Draft") ==> SqlStatusIs(r.status, "draft")
  }

  predicate PendingRecordAlike(r: Receipt) {
    PendingReceiptTexts(r) && SentAgrees(r) && DraftAlike(r)
  }

  /** A draft is selected alike when its remarks are read alike for "pending" and, if they do not hide
      it, its record is shown alike; with raw status Cancelled, when the pattern hides it. Other
      receipts must be submitted, cancelled or Cancelled in their raw status. */
  ghost predicate ReceiptSelectedAlike(r: Receipt) {
    if r.docStatus != 0 then KnownDocStatus(r) || RawCancelled(r)
    else if RawCancelled(r) then LikeState(r.remarks, "pending")
    else ReadsAlike(r.remarks, "pending") && (ExtractState(r.remarks) == "pending" || PendingRecordAlike(r))
  }

  predicate DeliveryPending(d: DeliveryNote) {
    DeliveryVisible(d) && DeliveryStatus(d) == Pending
  }

  /** A pending delivery note must have a customer state, and its texts must be shown alike. */
  predicate DeliverySelectedAlike(d: DeliveryNote) {
    DeliveryPending(d) ==> d.customerState.Some? && PendingDeliveryTexts(d)
  }

  ghost predicate SelectedAlike(row: Row) {
    match row case OfReceipt(r) => ReceiptSelectedAlike(r) case OfDelivery(d) => DeliverySelectedAlike(d)
  }

  /** The rows on which the pending query selects what Rust selects, and shows the same record. */
  lemma PendingSelectAgrees(row: Row)
    ensures SqlPendingSelect(row) == PendingOf(row) <==> SelectedAlike(row)
  {
    match row {
      case OfReceipt(r) => PendingReceiptAgrees(r);
      case OfDelivery(d) => PendingDeliveryAgrees(d);
    }
  }

  lemma SqlDraftText(s: string)
    ensures SqlStatusIs(s, "draft") ==> SameAsciiText(Trim(s), "Draft")
  {
    if SqlStatusIs(s, "draft") {
      LoweredTight(SqlTrim(s), "draft");
      DraftText(s);
    }
  }

  lemma PendingReceiptIs(r: Receipt)
    requires r.docStatus == 0 && !RawCancelled(r)
    ensures SqlPendingReceipt(r) == ReceiptToRecord(r) <==> PendingRecordAlike(r)
  {
    SqlDraftText(r.status);
    TightStays(r.name);
    TrimmedAlike(r.supplier);
    TrimmedAlike(r.supplierName);
    TrimmedAlike(r.itemCode);
    TrimmedAlike(r.itemName);
    TrimmedAlike(r.uom);
    TrimmedAlike(r.currency);
    TrimmedAlike(r.postingDate);
  }

  lemma PendingDeliveryIs(d: DeliveryNote)
    requires DeliveryPending(d)
    ensures SqlPendingDelivery(d) == DeliveryToRecord(d) <==> PendingDeliveryTexts(d)
  {
    TightStays(d.name);
    TrimmedAlike(d.customer);
    TrimmedAlike(d.customerName);
    TrimmedAlike(d.itemCode);
    TrimmedAlike(d.itemName);
    TrimmedAlike(d.uom);
    TrimmedAlike(d.modified);
  }

  lemma PendingWord()
    ensures Word("pending")
  {
    StateWords("pending");
  }

  lemma PendingReceiptAgrees(r: Receipt)
    ensures SqlPendingSelect(OfReceipt(r)) == PendingOf(OfReceipt(r)) <==> ReceiptSelectedAlike(r)
  {
    PendingReceiptFound(r);
    PendingWord();
    RemarksReadAlike(r.remarks, "pending");
    if r.docStatus == 0 && !RawCancelled(r) { PendingReceiptIs(r); }
  }

  lemma PendingReceiptFound(r: Receipt)
    ensures PendingOf(OfReceipt(r)).Some?
       <==> !RawCancelled(r) && if r.docStatus == 0 then ExtractState(r.remarks) != "pending" else !KnownDocStatus(r)
    ensures PendingOf(OfReceipt(r)).Some? ==> PendingOf(OfReceipt(r)) == Some(ReceiptToRecord(r))
  {
  }

  lemma PendingDeliveryFound(d: DeliveryNote)
    ensures PendingOf(OfDelivery(d)) == if DeliveryPending(d) then Some(DeliveryToRecord(d)) else None
    ensures SqlPendingSelect(OfDelivery(d))
         == if DeliveryPending(d) && d.customerState.Some? then Some(SqlPendingDelivery(d)) else None
  {
  }

  lemma PendingDeliveryAgrees(d: DeliveryNote)
    ensures SqlPendingSelect(OfDelivery(d)) == PendingOf(OfDelivery(d)) <==> DeliverySelectedAlike(d)
  {
    PendingDeliveryFound(d);
    if DeliveryPending(d) { PendingDeliveryIs(d); }
  }

  ghost predicate SelectsAlike(rows: seq<Row>) {
    forall row | row in multiset(rows) :: SelectedAlike(row)
  }

  lemma PendingMapAgrees(rows: seq<Row>)
    requires SelectsAlike(rows)
    ensures Map(rows, SqlPendingSelect) == Map(rows, PendingOf)
  {
    forall i | 0 <= i < |rows| ensures SqlPendingSelect(rows[i]) == PendingOf(rows[i]) {
      assert rows[i] in multiset(rows);
      PendingSelectAgrees(rows[i]);
    }
  }

  function LabelOf(): Record -> string { (record: Record) => record.createdLabel }

  predicate Later(a: string, b: string) {
    StrLe(b, a)
  }

  function LaterOrdering(): (string, string) -> bool {
    (a, b) => Later(a, b)
  }

  /** Two lists of the same records, newest first, show the same labels position by position. */
  lemma SameLabels(a: seq<Record>, b: seq<Record>)
    requires multiset(a) == multiset(b) && SortedBy(a, LabelOrdering()) && SortedBy(b, LabelOrdering())
    ensures Map(a, LabelOf()) == Map(b, LabelOf())
  {
    MapPermutes(a, b, LabelOf());
    forall x, y | Later(x, y) && Later(y, x) ensures x == y { StrLeTotal(x, y); }
    LabelsSorted(a);
    LabelsSorted(b);
    SortedUnique(Map(a, LabelOf()), Map(b, LabelOf()), LaterOrdering());
  }

  lemma LabelsSorted(a: seq<Record>)
    requires SortedBy(a, LabelOrdering())
    ensures SortedBy(Map(a, LabelOf()), LaterOrdering())
  {
    forall i, j | 0 <= i < j < |a| ensures Later(Map(a, LabelOf())[i], Map(a, LabelOf())[j]) {
      assert LabelOrdering()(a[i], a[j]);
    }
  }

  lemma PendingListSorted(rows: seq<Row>)
    ensures multiset(PendingList(rows, 0)) == multiset(PendingFound(rows))
    ensures SortedBy(PendingList(rows, 0), LabelOrdering())
  {
    LabelPreorder();
    SortByPermutes(PendingFound(rows), LabelOrdering());
    SortBySorted(PendingFound(rows), LabelOrdering());
  }

  lemma PendingMultiset(rows: seq<Row>, table: seq<Row>, result: seq<Record>)
    requires multiset(rows) == multiset(table) && SelectsAlike(rows) && IsSqlPending(result, table)
    ensures multiset(result) == multiset(PendingList(rows, 0))
  {
    MapPermutes(rows, table, SqlPendingSelect);
    SomesPermute(Map(rows, SqlPendingSelect), Map(table, SqlPendingSelect));
    PendingMapAgrees(rows);
    PendingListSorted(rows);
  }

  lemma CutsAlike(result: seq<Record>, list: seq<Record>, limit: nat)
    requires multiset(result) == multiset(list)
    requires SortedBy(result, LabelOrdering()) && SortedBy(list, LabelOrdering())
    ensures |Cut(result, limit)| == |Cut(list, limit)|
    ensures Map(Cut(result, limit), LabelOf()) == Map(Cut(list, limit), LabelOf())
  {
    SameLabels(result, list);
    assert |result| == |Map(result, LabelOf())| == |list|;
    if limit > 0 && |list| > limit {
      CutLabels(result, limit);
      CutLabels(list, limit);
    }
  }

  /** The pending query replaces the pending list on rows that are selected alike: over any
      arrangement of the table its result has the same records, and cut at any limit it shows the
      same labels. */
  lemma PushdownKeepsPending(rows: seq<Row>, table: seq<Row>, result: seq<Record>, limit: nat)
    requires multiset(rows) == multiset(table) && SelectsAlike(rows) && IsSqlPending(result, table)
    ensures multiset(result) == multiset(PendingList(rows, 0))
    ensures |Cut(result, limit)| == |PendingList(rows, limit)|
    ensures Map(Cut(result, limit), LabelOf()) == Map(PendingList(rows, limit), LabelOf())
  {
    PendingMultiset(rows, table, result);
    PendingListSorted(rows);
    NewestLabelsFirstIs(result);
    CutsAlike(result, PendingList(rows, 0), limit);
  }

  lemma CutLabels(s: seq<Record>, n: nat)
    requires n <= |s|
    ensures Map(s[..n], LabelOf()) == Map(s, LabelOf())[..n]
  {
  }

  // ------------------------------------------------- and on no others: names are unique

  predicate SameDocument(a: Row, b: Row) {
    match (a, b)
    case (OfReceipt(r), OfReceipt(q)) => Trim(r.name) == Trim(q.name)
    case (OfDelivery(d), OfDelivery(e)) => Trim(d.name) == Trim(e.name)
    case _ => false
  }

  /** One row per document, as the primary keys of both tables have it. */
  ghost predicate OneRowEach(rows: seq<Row>) {
    forall i, j | 0 <= i < j < |rows| :: !SameDocument(rows[i], rows[j])
  }

  lemma SelectedDocument(row: Row, other: Row)
    requires SqlPendingSelect(row).Some? && PendingOf(other) == SqlPendingSelect(row)
    ensures SameDocument(row, other)
  {
    TrimTwice(if other.OfReceipt? then other.receipt.name else other.delivery.name);
  }

  lemma {:induction false} SomesMember<T>(s: seq<Option<T>>, x: T)
    ensures x in Somes(s) <==> Some(x) in s
  {
    if s != [] {
      assert s == s[..|s| - 1] + [s[|s| - 1]];
      SomesMember(s[..|s| - 1], x);
    }
  }

  /** The query on one row and Rust on another find the same record only if the rows are one. */
  lemma OnlyHere(rows: seq<Row>, i: nat, j: nat)
    requires OneRowEach(rows) && i < |rows| && j < |rows|
    requires SqlPendingSelect(rows[i]).Some? && PendingOf(rows[j]) == SqlPendingSelect(rows[i])
    ensures i == j
  {
    SelectedDocument(rows[i], rows[j]);
    assert SameDocument(rows[i], rows[j]) == SameDocument(rows[j], rows[i]);
  }

  /** A record found in only one of two lists of finds tells them apart. */
  lemma FoundOnce(a: seq<Option<Record>>, b: seq<Option<Record>>, x: Record)
    requires Some(x) in a && Some(x) !in b
    ensures multiset(Somes(a)) != multiset(Somes(b))
  {
    SomesMember(a, x);
    SomesMember(b, x);
    assert x in multiset(Somes(a)) && x !in multiset(Somes(b));
  }

  ghost predicate MeetOnce(rows: seq<Row>, a: Row -> Option<Record>, b: Row -> Option<Record>) {
    forall i, j | 0 <= i < |rows| && 0 <= j < |rows| && a(rows[i]).Some? && b(rows[j]) == a(rows[i]) :: i == j
  }

  /** Two selections that meet only on the same row, and part on one, find different records. */
  lemma FindsDiffer(rows: seq<Row>, a: Row -> Option<Record>, b: Row -> Option<Record>, i: nat)
    requires MeetOnce(rows, a, b) && i < |rows| && a(rows[i]) != b(rows[i])
    ensures multiset(Somes(Map(rows, a))) != multiset(Somes(Map(rows, b)))
  {
    var found, others := Map(rows, a), Map(rows, b);
    if found[i].Some? {
      assert forall j | 0 <= j < |rows| :: others[j] == b(rows[j]) != found[i];
      FoundOnce(found, others, found[i].value);
    } else {
      assert forall j | 0 <= j < |rows| :: found[j] == a(rows[j]) != others[i];
      FoundOnce(others, found, others[i].value);
    }
  }

  lemma SelectionsMeetOnce(rows: seq<Row>)
    requires OneRowEach(rows)
    ensures MeetOnce(rows, SqlPendingSelect, PendingOf)
  {
    var a, b := SqlPendingSelect, PendingOf;
    forall i, j | 0 <= i < |rows| && 0 <= j < |rows| && a(rows[i]).Some? && b(rows[j]) == a(rows[i]) ensures i == j {
      OnlyHere(rows, i, j);
    }
  }

  /** With one row for each document, the pending query has the records of the pending list exactly
      when every row is selected alike. */
  lemma PendingExactly(rows: seq<Row>, table: seq<Row>, result: seq<Record>)
    requires multiset(rows) == multiset(table) && OneRowEach(rows) && IsSqlPending(result, table)
    ensures multiset(result) == multiset(PendingList(rows, 0)) <==> SelectsAlike(rows)
  {
    if SelectsAlike(rows) {
      PendingMultiset(rows, table, result);
    } else {
      var row :| row in multiset(rows) && !SelectedAlike(row);
      assert row in rows;
      var i :| 0 <= i < |rows| && rows[i] == row;
      PendingSelectAgrees(row);
      SelectionsMeetOnce(rows);
      FindsDiffer(rows, SqlPendingSelect, PendingOf, i);
      MapPermutes(rows, table, SqlPendingSelect);
      SomesPermute(Map(rows, SqlPendingSelect), Map(table, SqlPendingSelect));
      PendingListSorted(rows);
    }
  }

  // ------------------------------------------------------------------- summary query

  function SqlShownStatus(row: Row): Option<Status> {
    match row
    case OfReceipt(r) =>
      if !(r.docStatus == 0 && LikeState(r.remarks, "pending"))
         && !(r.docStatus == 1 && LikeState(r.remarks, "approved"))
      then Some(SqlReceiptStatus(r)) else None
    case OfDelivery(d) =>
      if d.docStatus == 1 && d.flowState == Some(1) then
        Some(match OrZero(d.customerState) case 2 => Rejected case 3 => Accepted case 4 => Partial case _ => Pending)
      else None
  }

  function SqlShownAs(kind: Kind): Row -> bool {
    row => SqlShownStatus(row).Some? && StatusOfKind(SqlShownStatus(row).value, kind)
  }

  /** The counters of WERKA_SUMMARY_PUSHDOWN_SQL. */
  function SqlSummary(table: seq<Row>): Summary {
    Summary(|Filter(table, SqlShownAs(PendingKind))|, |Filter(table, SqlShownAs(ConfirmedKind))|,
            |Filter(table, SqlShownAs(ReturnedKind))|)
  }

  /** A submitted receipt with approved remarks whose raw status is Cancelled, whose total is not
      positive or whose marker announced more: Rust counts it, the query hides it. */
  predicate HiddenReturn(row: Row) {
    && row.OfReceipt? && row.receipt.docStatus == 1 && ExtractState(row.receipt.remarks) == "approved"
    && (|| RawCancelled(row.receipt) || row.receipt.totalQty <= 0.0
        || Raises(Markers.RustMarkerQty(row.receipt.deliveryNote), row.receipt.totalQty))
  }

  /** Its status has only blanks at its ends, its marker is read alike, and so are its remarks for the
      state that hides a document of its docstatus. */
  ghost predicate ReadAlike(row: Row) {
    match row
    case OfReceipt(r) =>
      && BlankEnds(r.status) && SentAgrees(r)
      && (r.docStatus == 0 ==> ReadsAlike(r.remarks, "pending"))
      && (r.docStatus == 1 ==> ReadsAlike(r.remarks, "approved"))
    case OfDelivery(d) => true
  }

  lemma StatesRead(r: Receipt)
    requires ReadAlike(OfReceipt(r))
    ensures r.docStatus == 0 ==> (LikeState(r.remarks, "pending") <==> ExtractState(r.remarks) == "pending")
    ensures r.docStatus == 1 ==> (LikeState(r.remarks, "approved") <==> ExtractState(r.remarks) == "approved")
  {
    StateWords("pending");
    StateWords("approved");
    RemarksReadAlike(r.remarks, "pending");
    RemarksReadAlike(r.remarks, "approved");
  }

  lemma SummaryReceiptAgrees(r: Receipt)
    requires ReadAlike(OfReceipt(r))
    ensures SqlShownStatus(OfReceipt(r)) == if HiddenReturn(OfReceipt(r)) then None else ShownStatus(OfReceipt(r))
  {
    StatusAgrees(r);
    StatesRead(r);
    if r.docStatus == 1 { NotAccepted(r); }
  }

  lemma SubmittedIsDecided(r: Receipt)
    requires r.docStatus == 1
    ensures ReceiptStatus(r) != Pending && ReceiptStatus(r) != Draft
  {
  }

  lemma SubmittedIsShown(r: Receipt)
    requires r.docStatus == 1 && ReceiptStatus(r) != Accepted
    ensures ShownStatus(OfReceipt(r)) == Some(ReceiptStatus(r))
  {
  }

  lemma DecidedIsReturned(status: Status)
    requires status != Pending && status != Draft && status != Accepted
    ensures StatusOfKind(status, ReturnedKind)
  {
  }

  lemma ShownMeans(row: Row, status: Status, kind: Kind)
    requires ShownStatus(row) == Some(status) && StatusOfKind(status, kind)
    ensures ShownAs(kind)(row)
  {
  }

  lemma HiddenIsReturned(row: Row)
    ensures HiddenReturn(row) ==> ShownAs(ReturnedKind)(row)
  {
    if HiddenReturn(row) {
      NotAccepted(row.receipt);
      SubmittedIsDecided(row.receipt);
      SubmittedIsShown(row.receipt);
      DecidedIsReturned(ReceiptStatus(row.receipt));
      ShownMeans(row, ReceiptStatus(row.receipt), ReturnedKind);
    }
  }

  lemma SummaryRowAgrees(row: Row)
    requires ReadAlike(row)
    ensures SqlShownStatus(row) == if HiddenReturn(row) then None else ShownStatus(row)
    ensures HiddenReturn(row) ==> ShownAs(ReturnedKind)(row)
  {
    HiddenIsReturned(row);
    match row {
      case OfReceipt(r) => SummaryReceiptAgrees(r);
      case OfDelivery(d) =>
    }
  }

  lemma KindRowAgrees(row: Row, kind: Kind)
    requires ReadAlike(row)
    ensures ShownAs(kind)(row) == (SqlShownAs(kind)(row) || (HiddenReturn(row) && kind == ReturnedKind))
    ensures !(SqlShownAs(kind)(row) && HiddenReturn(row))
  {
    SummaryRowAgrees(row);
    if HiddenReturn(row) { ExactlyOneKind(ShownStatus(row).value); }
  }

  lemma KindCounts(rows: seq<Row>, kind: Kind)
    requires forall row | row in multiset(rows) :: ReadAlike(row)
    ensures kind != ReturnedKind ==> |Filter(rows, SqlShownAs(kind))| == |Filter(rows, ShownAs(kind))|
    ensures kind == ReturnedKind ==>
              |Filter(rows, SqlShownAs(kind))| + |Filter(rows, HiddenReturn)| == |Filter(rows, ShownAs(kind))|
  {
    forall row | row in multiset(rows)
      ensures ShownAs(kind)(row) == (SqlShownAs(kind)(row) || (HiddenReturn(row) && kind == ReturnedKind))
      ensures !(SqlShownAs(kind)(row) && HiddenReturn(row))
    {
      KindRowAgrees(row, kind);
    }
    if kind == ReturnedKind {
      FilterUnion(rows, ShownAs(kind), SqlShownAs(kind), HiddenReturn);
    } else {
      FilterAgrees(rows, SqlShownAs(kind), ShownAs(kind));
    }
  }

  /** The summary query counts pending and confirmed as Rust does, and its returned counter is short
      by exactly the submitted, approved receipts that are Cancelled in their raw status, have no
      positive total or were announced with more. */
  lemma SummaryQueryIs(rows: seq<Row>)
    requires forall row | row in multiset(rows) :: ReadAlike(row)
    ensures SqlSummary(rows).pending == SummaryOf(rows).pending
    ensures SqlSummary(rows).confirmed == SummaryOf(rows).confirmed
    ensures SqlSummary(rows).returned + |Filter(rows, HiddenReturn)| == SummaryOf(rows).returned
  {
    KindCounts(rows, PendingKind);
    KindCounts(rows, ConfirmedKind);
    KindCounts(rows, ReturnedKind);
  }

  /** Receipts whose remarks hold no state line, or one spelled as the application spells it, are read
      alike; so a draft that is not cancelled is selected alike when its texts are shown alike. */
  lemma PlainRemarksSelected(r: Receipt)
    requires BlankEnds(r.status) && SentAgrees(r) && PlainRemarks(r.remarks)
    ensures ReadAlike(OfReceipt(r))
    ensures PendingReceiptTexts(r) && KnownDocStatus(r) && !(r.docStatus == 0 && RawCancelled(r)) ==>
              SelectedAlike(OfReceipt(r))
  {
    PlainReadAlike(r.remarks, "pending");
    PlainReadAlike(r.remarks, "approved");
    DraftText(r.status);
  }

  /** Remarks the application wrote are plain, when neither the note's lines nor the reason quote
      the prefix; so are remarks that never mention it. */
  lemma WrittenRemarksAgree(r: Receipt, note: string, state: string, reason: string)
    requires BlankEnds(r.status) && SentAgrees(r)
    requires !Contains(r.remarks, PREFIX)
             || (r.remarks == Upsert(note, state, reason) && state in STATES
                 && NoneQuote(KeptLines(note)) && !Contains(Trim(reason), PREFIX))
    ensures ReadAlike(OfReceipt(r))
    ensures PendingReceiptTexts(r) && KnownDocStatus(r) && !(r.docStatus == 0 && RawCancelled(r)) ==>
              SelectedAlike(OfReceipt(r))
  {
    if Contains(r.remarks, PREFIX) {
      WrittenIsPlain(note, state, reason);
    } else {
      UnmentionedIsPlain(r.remarks);
    }
    PlainRemarksSelected(r);
  }

  /** A row whose name is stored without white space and whose other texts have only blanks at their
      ends; a receipt's marker is read alike, its remarks hold at most one state line as the
      application spells it, and it is no cancelled draft; a visible note has a customer state. */
  ghost predicate OrdinaryRow(row: Row) {
    match row
    case OfReceipt(r) =>
      && PendingReceiptTexts(r) && BlankEnds(r.status) && SentAgrees(r)
      && KnownDocStatus(r) && PlainRemarks(r.remarks) && !(r.docStatus == 0 && RawCancelled(r))
    case OfDelivery(d) => PendingDeliveryTexts(d) && !(DeliveryVisible(d) && d.customerState.None?)
  }

  lemma OrdinaryIsAlike(row: Row)
    requires OrdinaryRow(row)
    ensures SelectedAlike(row)
  {
    if row.OfReceipt? { PlainRemarksSelected(row.receipt); }
  }

  lemma OrdinaryRowsAlike(rows: seq<Row>)
    requires forall row | row in multiset(rows) :: OrdinaryRow(row)
    ensures SelectsAlike(rows)
  {
    forall row | row in multiset(rows) ensures SelectedAlike(row) {
      OrdinaryIsAlike(row);
    }
  }

  /** Over ordinary rows the pending query lists what Rust lists. */
  lemma OrdinaryPushdown(rows: seq<Row>, table: seq<Row>, result: seq<Record>, limit: nat)
    requires multiset(rows) == multiset(table) && IsSqlPending(result, table)
    requires forall row | row in multiset(rows) :: OrdinaryRow(row)
    ensures multiset(result) == multiset(PendingList(rows, 0))
    ensures |Cut(result, limit)| == |PendingList(rows, limit)|
    ensures Map(Cut(result, limit), LabelOf()) == Map(PendingList(rows, limit), LabelOf())
  {
    OrdinaryRowsAlike(rows);
    PushdownKeepsPending(rows, table, result, limit);
  }

  // -------------------------------------------------------------- rows that part them

  /** A submitted note whose customer state was never set. */
  function NullStateNote(): DeliveryNote {
    DeliveryNote("DN-1", "C-1", "Client", 1, "2026-01-16", 8.0, 0.0, "I-1", "Item", "Kg", Some(1), None)
  }

  lemma TightDelivery(d: DeliveryNote)
    requires Tight(d.name) && Tight(d.customer) && Tight(d.customerName) && Tight(d.itemCode)
    requires Tight(d.itemName) && Tight(d.uom) && Tight(d.modified)
    ensures PendingDeliveryTexts(d)
  {
    TightStays(d.customer);
    TightStays(d.customerName);
    TightStays(d.itemCode);
    TightStays(d.itemName);
    TightStays(d.uom);
    TightStays(d.modified);
  }

  /** Rust lists it as pending; the query leaves it out. */
  lemma NullStateLeftOut()
    ensures PendingDeliveryTexts(NullStateNote())
    ensures PendingOf(OfDelivery(NullStateNote())) == Some(DeliveryToRecord(NullStateNote()))
    ensures SqlPendingSelect(OfDelivery(NullStateNote())) == None
  {
    TightDelivery(NullStateNote());
    PendingDeliveryFound(NullStateNote());
  }

  lemma PrefixAlone(state: string)
    requires state in STATES
    ensures PlainRemarks(Pattern(state)) && ExtractState(Pattern(state)) == state
  {
    StateWords(state);
    PatternShape(state);
    SplitFree(Pattern(state), '\n');
    TrimOfTight(Pattern(state), IsWhite);
    OneLineState(" " + state);
    AfterBlank(state);
  }

  /** An approved receipt that fell short of its marker: Rust counts it as returned; the summary
      query does not count it. */
  lemma ApprovedBelowMarker(r: Receipt, phone: string, timestamp: string, q: int)
    requires BlankEnds(r.status) && r.docStatus == 1 && !RawCancelled(r) && r.remarks == Pattern("approved")
    requires r.deliveryNote == Markers.TelegramMarker(phone, timestamp, q) && 0 < q < 1_000_000_000_000_000_000
    requires r.totalQty < q as real / 10000.0
    ensures ReadAlike(OfReceipt(r)) && HiddenReturn(OfReceipt(r))
    ensures ShownAs(ReturnedKind)(OfReceipt(r)) && SqlShownStatus(OfReceipt(r)) == None
  {
    PrintedMarkersAgree(r, phone, timestamp, q);
    PrefixAlone("approved");
    PlainRemarksSelected(r);
    PrintedMarkerDecides(r, phone, timestamp, q);
    NotAccepted(r);
    SummaryRowAgrees(OfReceipt(r));
  }

  /** Announced with two, submitted with one, its remarks approved. */
  function ApprovedShort(): Receipt {
    ReceiptWith(1, "", 1.0, Markers.TelegramMarker("998", "1", 20000), Pattern("approved"))
  }

  lemma NoStatus(status: string)
    requires status == []
    ensures !SameAsciiText(Trim(status), "Cancelled") && BlankEnds(status)
  {
    TightStays(status);
  }

  lemma ApprovedShortIs()
    ensures var r := ApprovedShort();
            BlankEnds(r.status) && r.docStatus == 1 && !RawCancelled(r) && r.remarks == Pattern("approved")
            && r.deliveryNote == Markers.TelegramMarker("998", "1", 20000) && r.totalQty < 20000.0 / 10000.0
  {
    NoStatus("");
  }

  lemma ApprovedShortUncounted()
    ensures HiddenReturn(OfReceipt(ApprovedShort())) && SqlShownStatus(OfReceipt(ApprovedShort())) == None
  {
    ApprovedShortIs();
    ApprovedBelowMarker(ApprovedShort(), "998", "1", 20000);
  }

  /** A draft whose raw status was set to Cancelled and whose remarks hold no state line: only the
      query lists it. */
  lemma CancelledDraftListed(r: Receipt)
    requires r.docStatus == 0 && RawCancelled(r) && !Contains(r.remarks, PREFIX)
    ensures SqlPendingSelect(OfReceipt(r)).Some? && PendingOf(OfReceipt(r)).None?
  {
    PendingReceiptFound(r);
    UnmentionedIsUnlike(r.remarks, "pending");
  }
}
