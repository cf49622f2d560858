/** The status details: classify-then-filter in Rust (src/erpdb/werka_status_details.rs) and the two
    queries that replace it for "confirmed" and "returned" (src/erpdb/reader_sql.rs). */
module WerkaDetails {
  import opened Text
  import opened Orders
  import opened Sequences
  import opened WerkaRecords
  import opened WerkaBreakdown

  // ------------------------------------------------------------------ the Rust side

  /** Newest label first. */
  predicate LabelLe(a: Record, b: Record) {
    StrLe(b.createdLabel, a.createdLabel)
  }

  function LabelOrdering(): (Record, Record) -> bool {
    (a, b) => LabelLe(a, b)
  }

  /** The order of the lists, as the rule has it: no label comes after a smaller one. */
  ghost predicate NewestLabelsFirst(records: seq<Record>) {
    forall i, j | 0 <= i < j < |records| :: Ascends(records[j].createdLabel, records[i].createdLabel)
  }

  /** The sort's comparison is that rule. */
  lemma NewestLabelsFirstIs(records: seq<Record>)
    ensures SortedBy(records, LabelOrdering()) <==> NewestLabelsFirst(records)
  {
    forall i, j | 0 <= i < j < |records|
      ensures LabelOrdering()(records[i], records[j]) <==> Ascends(records[j].createdLabel, records[i].createdLabel)
    {
      StrLeIs(records[j].createdLabel, records[i].createdLabel);
    }
  }

  lemma LabelPreorder()
    ensures TotalPreorder(LabelOrdering())
  {
    forall a: Record, b: Record ensures LabelLe(a, b) || LabelLe(b, a) { StrLeTotal(a.createdLabel, b.createdLabel); }
    forall a: Record, b: Record, c: Record | LabelLe(a, b) && LabelLe(b, c) ensures LabelLe(a, c) {
      StrLeTrans(c.createdLabel, b.createdLabel, a.createdLabel);
    }
  }

  /** Sorting by label: the same records, newest label first. */
  lemma SortedByLabel(records: seq<Record>)
    ensures multiset(SortBy(records, LabelOrdering())) == multiset(records)
    ensures SortedBy(SortBy(records, LabelOrdering()), LabelOrdering())
    ensures NewestLabelsFirst(SortBy(records, LabelOrdering()))
  {
    LabelPreorder();
    SortByPermutes(records, LabelOrdering());
    SortBySorted(records, LabelOrdering());
    NewestLabelsFirstIs(SortBy(records, LabelOrdering()));
  }

  predicate RefMatches(record: Record, needle: string) {
    needle == [] || SameAsciiText(Trim(record.supplierRef), needle)
  }

  function Selects(kind: Kind, needle: string): Record -> bool {
    record => RefMatches(record, needle) && StatusOfKind(record.status, kind)
  }

  function RustDetails(rows: seq<Row>, kind: Kind, needle: string): seq<Record> {
    SortBy(Filter(Map(rows, RecordOf), Selects(kind, needle)), LabelOrdering())
  }

  method AddIfMatches(result: seq<Record>, record: Record, kind: string, needle: string) returns (after: seq<Record>)
    ensures after == result + if Selects(ReadKind(kind), needle)(record) then [record] else []
  {
    if needle != [] && !SameAsciiText(Trim(record.supplierRef), needle) { return result; }
    if !StatusOfKind(record.status, ReadKind(kind)) { return result; }
    return result + [record];
  }

  /** The records of some rows that are selected, in order: one of the two loops. */
  method CollectRecords(records: seq<Record>, kind: string, needle: string) returns (result: seq<Record>)
    ensures result == Filter(records, Selects(ReadKind(kind), needle))
  {
    result := [];
    for i := 0 to |records|
      invariant result == Filter(records[..i], Selects(ReadKind(kind), needle))
    {
      FilterNext(records, i, Selects(ReadKind(kind), needle));
      result := AddIfMatches(result, records[i], kind, needle);
    }
    assert records[..|records|] == records;
  }

  lemma SelectedTogether(receipts: seq<Receipt>, deliveries: seq<DeliveryNote>, p: Record -> bool)
    ensures Filter(Map(receipts, ReceiptToRecord), p) + Filter(Map(deliveries, DeliveryToRecord), p)
         == Filter(Map(RowsOf(receipts, deliveries), RecordOf), p)
  {
    FilterOfConcat(Map(receipts, ReceiptToRecord), Map(deliveries, DeliveryToRecord), p);
    RecordsTogether(receipts, deliveries);
  }

  lemma RecordsTogether(receipts: seq<Receipt>, deliveries: seq<DeliveryNote>)
    ensures Map(receipts, ReceiptToRecord) + Map(deliveries, DeliveryToRecord)
         == Map(RowsOf(receipts, deliveries), RecordOf)
  {
    RecordsOfRows(receipts, deliveries);
    MapOfConcat(Map(receipts, ReceiptRow()), Map(deliveries, DeliveryRow()), RecordOf);
  }

  /** `build_werka_status_details`. */
  method BuildWerkaStatusDetails(receipts: seq<Receipt>, deliveries: seq<DeliveryNote>,
                                  kind: string, supplierRef: string)
    returns (result: seq<Record>)
    ensures result == RustDetails(RowsOf(receipts, deliveries), ReadKind(kind), Trim(supplierRef))
    ensures NewestLabelsFirst(result)
  {
    var needle := Trim(supplierRef);
    var first := CollectRecords(Map(receipts, ReceiptToRecord), kind, needle);
    var second := CollectRecords(Map(deliveries, DeliveryToRecord), kind, needle);
    SelectedTogether(receipts, deliveries, Selects(ReadKind(kind), needle));
    result := SortBy(first + second, LabelOrdering());
    SortedByLabel(first + second);
  }

  // ------------------------------------------------------------------ the queries

  function SqlReceiptDetail(r: Receipt, accepted: real, status: Status): Record {
    Record(SqlTrim(r.name), PurchaseReceiptRecord, SqlTrim(r.supplier), SqlTrim(r.supplierName),
           SqlTrim(r.itemCode), SqlTrim(r.itemName), SqlTrim(r.uom),
           SqlSent(r), accepted, r.amount, SqlTrim(r.currency), status, SqlTrim(r.postingDate))
  }

  function SqlDeliveryDetail(d: DeliveryNote, accepted: real, status: Status): Record {
    Record(SqlTrim(d.name), DeliveryNoteRecord, SqlTrim(d.customer), SqlTrim(d.customerName),
           SqlTrim(d.itemCode), SqlTrim(d.itemName), SqlTrim(d.uom),
           d.qty, accepted, 0.0, "", status, SqlTrim(d.modified))
  }

  /** WERKA_STATUS_DETAILS_CONFIRMED_SQL on one row: the WHERE clause, then the columns. */
  function ConfirmedSelect(row: Row): Option<Record> {
    match row
    case OfReceipt(r) =>
      if r.docStatus == 1 && !SqlStatusIs(r.status, "cancelled") && r.totalQty > 0.0 && r.totalQty >= SqlSent(r)
      then Some(SqlReceiptDetail(r, r.totalQty, Accepted)) else None
    case OfDelivery(d) =>
      if d.docStatus == 1 && d.flowState == Some(1) && d.customerState == Some(3)
      then Some(SqlDeliveryDetail(d, d.qty, Accepted)) else None
  }

  function ReturnedAccepted(r: Receipt): real {
    if r.docStatus == 1 && !SqlStatusIs(r.status, "cancelled") && r.totalQty > 0.0 && r.totalQty < SqlSent(r)
    then r.totalQty else 0.0
  }

  function ReturnedStatus(r: Receipt): Status {
    if r.docStatus == 2 || SqlStatusIs(r.status, "cancelled") then Cancelled
    else if r.totalQty <= 0.0 then Rejected
    else Partial
  }

  function ReturnedDeliveryAccepted(d: DeliveryNote): real {
    if OrZero(d.customerState) == 4 then
      Max(d.qty - (if d.returnedQty <= 0.0 then Max(d.qty, 0.0) else d.returnedQty), 0.0)
    else 0.0
  }

  /** WERKA_STATUS_DETAILS_RETURNED_SQL on one row. */
  function ReturnedSelect(row: Row): Option<Record> {
    match row
    case OfReceipt(r) =>
      if r.docStatus == 2 || SqlStatusIs(r.status, "cancelled")
         || (r.docStatus == 1 && (r.totalQty <= 0.0 || r.totalQty < SqlSent(r)))
      then Some(SqlReceiptDetail(r, ReturnedAccepted(r), ReturnedStatus(r))) else None
    case OfDelivery(d) =>
      if d.docStatus == 1 && d.flowState == Some(1) && (d.customerState == Some(2) || d.customerState == Some(4))
      then Some(SqlDeliveryDetail(d, ReturnedDeliveryAccepted(d),
                                   if OrZero(d.customerState) == 4 then Partial else Rejected))
      else None
  }

  predicate QueriedKind(kind: Kind) {
    kind == ConfirmedKind || kind == ReturnedKind
  }

  function SqlSelect(kind: Kind): Row -> Option<Record>
    requires QueriedKind(kind)
  {
    row => if kind == ConfirmedKind then ConfirmedSelect(row) else ReturnedSelect(row)
  }

  /** The outer WHERE on the supplier; both parameters are the trimmed reference. */
  predicate SqlRefMatches(record: Record, needle: string) {
    needle == "" || Lower(SqlTrim(record.supplierRef)) == Lower(SqlTrim(needle))
  }

  function SqlSelected(kind: Kind, needle: string): Row -> Option<Record>
    requires QueriedKind(kind)
  {
    row =>
      var found := SqlSelect(kind)(row);
      if found.Some? && SqlRefMatches(found.value, needle) then found else None
  }

  function Somes<T>(s: seq<Option<T>>): seq<T> {
    if s == [] then []
    else Somes(s[..|s| - 1]) + (if s[|s| - 1].Some? then [s[|s| - 1].value] else [])
  }

  /** A result of the query: the selected records, newest label first, ties in any order. */
  ghost predicate IsSqlDetails(result: seq<Record>, table: seq<Row>, kind: Kind, needle: string)
    requires QueriedKind(kind)
  {
    && multiset(result) == multiset(Somes(Map(table, SqlSelected(kind, needle))))
    && NewestLabelsFirst(result)
  }

  // ------------------------------------------------------------------- row by row

  function RustSelected(kind: Kind, needle: string): Row -> Option<Record> {
    row => if Selects(kind, needle)(RecordOf(row)) then Some(RecordOf(row)) else None
  }

  /** The texts a record shows have only blanks at their ends. */
  predicate ReceiptTexts(r: Receipt) {
    && BlankEnds(r.name) && BlankEnds(r.supplier) && BlankEnds(r.supplierName) && BlankEnds(r.itemCode)
    && BlankEnds(r.itemName) && BlankEnds(r.uom) && BlankEnds(r.currency) && BlankEnds(r.postingDate)
  }

  predicate DeliveryTexts(d: DeliveryNote) {
    && BlankEnds(d.name) && BlankEnds(d.customer) && BlankEnds(d.customerName) && BlankEnds(d.itemCode)
    && BlankEnds(d.itemName) && BlankEnds(d.uom) && BlankEnds(d.modified)
  }

  /** With Rust's status and accepted quantity the query's columns are the record exactly when both
      sides trim its texts alike and read the same sent quantity. */
  lemma ReceiptDetailIs(r: Receipt)
    ensures SqlReceiptDetail(r, ReceiptToRecord(r).acceptedQty, ReceiptToRecord(r).status) == ReceiptToRecord(r)
       <==> ReceiptTexts(r) && SentAgrees(r)
  {
    TrimmedAlike(r.name);
    TrimmedAlike(r.supplier);
    TrimmedAlike(r.supplierName);
    TrimmedAlike(r.itemCode);
    TrimmedAlike(r.itemName);
    TrimmedAlike(r.uom);
    TrimmedAlike(r.currency);
    TrimmedAlike(r.postingDate);
  }

  lemma DeliveryDetailIs(d: DeliveryNote)
    ensures SqlDeliveryDetail(d, DeliveryAccepted(d), DeliveryStatus(d)) == DeliveryToRecord(d) <==> DeliveryTexts(d)
  {
    TrimmedAlike(d.name);
    TrimmedAlike(d.customer);
    TrimmedAlike(d.customerName);
    TrimmedAlike(d.itemCode);
    TrimmedAlike(d.itemName);
    TrimmedAlike(d.uom);
    TrimmedAlike(d.modified);
  }

  function IfOfKind(record: Record, kind: Kind): Option<Record> {
    if StatusOfKind(record.status, kind) then Some(record) else None
  }

  /** The texts shown and the status have only blanks at their ends, and the marker is read alike. */
  predicate DetailRow(row: Row) {
    match row
    case OfReceipt(r) => ReceiptTexts(r) && BlankEnds(r.status) && SentAgrees(r)
    case OfDelivery(d) => DeliveryTexts(d)
  }

  ghost predicate AllDetail(rows: seq<Row>) {
    forall row | row in multiset(rows) :: DetailRow(row)
  }

  lemma ConfirmedReceiptAgrees(r: Receipt)
    requires DetailRow(OfReceipt(r))
    ensures ConfirmedSelect(OfReceipt(r)) == IfOfKind(ReceiptToRecord(r), ConfirmedKind)
  {
    StatusAgrees(r);
    CancelledText(r.status);
    ReceiptDetailIs(r);
  }

  lemma ReturnedReceiptAgrees(r: Receipt)
    requires DetailRow(OfReceipt(r))
    ensures ReturnedSelect(OfReceipt(r)) == IfOfKind(ReceiptToRecord(r), ReturnedKind)
  {
    StatusAgrees(r);
    CancelledText(r.status);
    ReceiptDetailIs(r);
    var status := ReceiptStatus(r);
    if StatusOfKind(status, ReturnedKind) {
      assert status == ReturnedStatus(r);
      assert ReceiptToRecord(r).acceptedQty == ReturnedAccepted(r);
    }
  }

  lemma ReceiptSelectAgrees(r: Receipt)
    requires DetailRow(OfReceipt(r))
    ensures ConfirmedSelect(OfReceipt(r)) == IfOfKind(ReceiptToRecord(r), ConfirmedKind)
    ensures ReturnedSelect(OfReceipt(r)) == IfOfKind(ReceiptToRecord(r), ReturnedKind)
  {
    ConfirmedReceiptAgrees(r);
    ReturnedReceiptAgrees(r);
  }

  lemma DeliverySelectIs(d: DeliveryNote, kind: Kind)
    requires QueriedKind(kind)
    ensures SqlSelect(kind)(OfDelivery(d))
         == if StatusOfKind(DeliveryStatus(d), kind)
            then Some(SqlDeliveryDetail(d, DeliveryAccepted(d), DeliveryStatus(d)))
            else None
  {
    var status := DeliveryStatus(d);
    if StatusOfKind(status, ConfirmedKind) {
      assert DeliveryAccepted(d) == d.qty;
    } else if StatusOfKind(status, ReturnedKind) {
      assert DeliveryAccepted(d) == ReturnedDeliveryAccepted(d);
    }
  }

  /** On every row the query selects exactly what Rust classifies into the kind, with the same
      status, quantities and texts, blanks around the stored texts included. */
  lemma SelectAgrees(row: Row, kind: Kind)
    requires QueriedKind(kind) && DetailRow(row)
    ensures SqlSelect(kind)(row) == IfOfKind(RecordOf(row), kind)
  {
    match row {
      case OfReceipt(r) => ReceiptSelectAgrees(r);
      case OfDelivery(d) =>
        DeliverySelectIs(d, kind);
        DeliveryDetailIs(d);
    }
  }

  lemma RecordRefTight(row: Row)
    ensures Tight(RecordOf(row).supplierRef) && Trim(RecordOf(row).supplierRef) == RecordOf(row).supplierRef
    ensures SqlTrim(RecordOf(row).supplierRef) == RecordOf(row).supplierRef
  {
    match row {
      case OfReceipt(r) => TrimTwice(r.supplier);
      case OfDelivery(d) => TrimTwice(d.customer);
    }
    TightStays(RecordOf(row).supplierRef);
  }

  lemma SelectedAgrees(row: Row, kind: Kind, needle: string)
    requires QueriedKind(kind) && DetailRow(row) && Tight(needle)
    ensures SqlSelected(kind, needle)(row) == RustSelected(kind, needle)(row)
  {
    var record := RecordOf(row);
    SelectAgrees(row, kind);
    RecordRefTight(row);
    TightStays(needle);
    assert SqlRefMatches(record, needle) == RefMatches(record, needle);
    assert SqlSelected(kind, needle)(row)
        == if StatusOfKind(record.status, kind) && SqlRefMatches(record, needle) then Some(record) else None;
    assert Selects(kind, needle)(record) == (RefMatches(record, needle) && StatusOfKind(record.status, kind));
    assert RustSelected(kind, needle)(row)
        == if StatusOfKind(record.status, kind) && RefMatches(record, needle) then Some(record) else None;
  }

  /** A raw status that only Rust reads as Cancelled matters unless the docstatus says so anyway. */
  predicate CancelledAlike(r: Receipt) {
    r.docStatus != 2 && RawCancelled(r) ==> SqlStatusIs(r.status, "cancelled")
  }

  /** The row's record comes out of the query as it comes out of Rust. */
  predicate RecordAlike(row: Row) {
    match row
    case OfReceipt(r) => ReceiptTexts(r) && SentAgrees(r) && CancelledAlike(r)
    case OfDelivery(d) => DeliveryTexts(d)
  }

  /** A status the query reads as Cancelled has only blanks at its ends. */
  lemma SqlCancelledText(s: string)
    ensures SqlStatusIs(s, "cancelled") ==> SameAsciiText(Trim(s), "Cancelled")
  {
    if SqlStatusIs(s, "cancelled") {
      LoweredTight(SqlTrim(s), "cancelled");
      CancelledText(s);
    }
  }

  lemma LoweredTight(s: string, word: string)
    requires Lower(s) == word && word != [] && IsLowerLetter(word[0]) && IsLowerLetter(word[|word| - 1])
    ensures Tight(s)
  {
    assert LowerChar(s[0]) == word[0] && LowerChar(s[|s| - 1]) == word[|word| - 1];
  }

  predicate IsLowerLetter(c: char) {
    'a' <= c <= 'z'
  }

  lemma ConfirmedExactly(r: Receipt)
    requires ReceiptStatus(r) == Accepted
    ensures ConfirmedSelect(OfReceipt(r)) == Some(ReceiptToRecord(r)) <==> ReceiptTexts(r) && SentAgrees(r)
  {
    SqlCancelledText(r.status);
    ReceiptDetailIs(r);
  }

  lemma ReturnedExactly(r: Receipt)
    requires StatusOfKind(ReceiptStatus(r), ReturnedKind)
    ensures ReturnedSelect(OfReceipt(r)) == Some(ReceiptToRecord(r))
       <==> ReceiptTexts(r) && SentAgrees(r) && CancelledAlike(r)
  {
    SqlCancelledText(r.status);
    ReceiptDetailIs(r);
  }

  /** For a row that Rust selects, the query gives the same record exactly when both sides read the
      same sent quantity, only blanks stand at the ends of the texts shown, and the query reads a
      Cancelled raw status too. */
  lemma SelectExactly(row: Row, kind: Kind)
    requires QueriedKind(kind) && StatusOfKind(RecordOf(row).status, kind)
    ensures SqlSelect(kind)(row) == Some(RecordOf(row)) <==> RecordAlike(row)
  {
    match row {
      case OfReceipt(r) => if kind == ConfirmedKind { ConfirmedExactly(r); } else { ReturnedExactly(r); }
      case OfDelivery(d) =>
        DeliverySelectIs(d, kind);
        DeliveryDetailIs(d);
    }
  }

  /** A name with a tab behind it is trimmed by Rust and kept by the query. */
  lemma TabKept(name: string)
    requires name != [] && Tight(name)
    ensures Trim(name + "\t") == name && SqlTrim(name + "\t") == name + "\t" && !BlankEnds(name + "\t")
  {
    assert name + "\t" == [] + name + "\t";
    TrimIsMiddle([], name, "\t", IsWhite);
    TrimOfTight(name + "\t", c => c == ' ');
  }

  // --------------------------------------------------------------- the whole result

  lemma {:induction false} SomesOfRust(rows: seq<Row>, kind: Kind, needle: string)
    ensures Somes(Map(rows, RustSelected(kind, needle))) == Filter(Map(rows, RecordOf), Selects(kind, needle))
  {
    if rows != [] {
      var init, row := rows[..|rows| - 1], rows[|rows| - 1];
      SomesOfRust(init, kind, needle);
      assert Map(rows, RustSelected(kind, needle))[..|rows| - 1] == Map(init, RustSelected(kind, needle));
      assert Map(rows, RecordOf)[..|rows| - 1] == Map(init, RecordOf);
    }
  }

  lemma {:induction false} SomesSnoc<T>(s: seq<Option<T>>, x: Option<T>)
    ensures Somes(s + [x]) == Somes(s) + if x.Some? then [x.value] else []
  {
    assert (s + [x])[..|s|] == s;
  }

  lemma {:induction false} SomesOfConcat<T>(a: seq<Option<T>>, b: seq<Option<T>>)
    ensures Somes(a + b) == Somes(a) + Somes(b)
  {
    if b == [] {
      assert a + b == a;
    } else {
      SomesOfConcat(a, b[..|b| - 1]);
      assert (a + b)[..|a + b| - 1] == a + b[..|b| - 1];
    }
  }

  lemma {:induction false} SomesPermute<T>(s: seq<Option<T>>, t: seq<Option<T>>)
    requires multiset(s) == multiset(t)
    ensures multiset(Somes(s)) == multiset(Somes(t))
  {
    if s == [] {
      assert |multiset(t)| == |t|;
    } else {
      var init, x := s[..|s| - 1], s[|s| - 1];
      assert s == init + [x];
      assert x in multiset(s);
      var before, after := TakeOut(t, x);
      SomesPermute(init, before + after);
      SomesOfConcat(before + [x], after);
      SomesSnoc(before, x);
      SomesOfConcat(before, after);
    }
  }

  lemma MapAgrees(rows: seq<Row>, kind: Kind, needle: string)
    requires QueriedKind(kind) && AllDetail(rows) && Tight(needle)
    ensures Map(rows, SqlSelected(kind, needle)) == Map(rows, RustSelected(kind, needle))
  {
    forall i | 0 <= i < |rows| ensures SqlSelected(kind, needle)(rows[i]) == RustSelected(kind, needle)(rows[i]) {
      assert rows[i] in multiset(rows);
      SelectedAgrees(rows[i], kind, needle);
    }
  }

  /** The queries replace classify-then-filter: over any arrangement of the table, every result has
      the same records, and like the Rust list it is ordered by label, newest first. */
  lemma PushdownKeepsDetails(rows: seq<Row>, table: seq<Row>, kind: Kind, needle: string, result: seq<Record>)
    requires multiset(rows) == multiset(table) && AllDetail(rows) && QueriedKind(kind) && Tight(needle)
    requires IsSqlDetails(result, table, kind, needle)
    ensures multiset(result) == multiset(RustDetails(rows, kind, needle))
    ensures NewestLabelsFirst(RustDetails(rows, kind, needle))
  {
    SortedByLabel(Filter(Map(rows, RecordOf), Selects(kind, needle)));
    MapPermutes(rows, table, SqlSelected(kind, needle));
    SomesPermute(Map(rows, SqlSelected(kind, needle)), Map(table, SqlSelected(kind, needle)));
    MapAgrees(rows, kind, needle);
    SomesOfRust(rows, kind, needle);
  }
}
