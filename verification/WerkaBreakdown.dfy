/** The status breakdown: the Rust fold over rows (src/erpdb/werka_status_breakdown.rs) and the
    query with a window and GROUP BY that replaces it (src/erpdb/reader_sql.rs). */
module WerkaBreakdown {
  import opened Text
  import opened Orders
  import opened Sequences
  import opened Grouping
  import opened WerkaRecords
  import Markers

  datatype Row = OfReceipt(receipt: Receipt) | OfDelivery(delivery: DeliveryNote)

  function RowsOf(receipts: seq<Receipt>, deliveries: seq<DeliveryNote>): seq<Row> {
    Map(receipts, ReceiptRow()) + Map(deliveries, DeliveryRow())
  }

  function ReceiptRow(): Receipt -> Row { r => OfReceipt(r) }
  function DeliveryRow(): DeliveryNote -> Row { d => OfDelivery(d) }

  function RecordOf(row: Row): Record {
    match row case OfReceipt(r) => ReceiptToRecord(r) case OfDelivery(d) => DeliveryToRecord(d)
  }

  // ------------------------------------------------------------- the Rust fold

  function LineOf(record: Record): Line {
    var ref, name := Trim(record.supplierRef), Trim(record.supplierName);
    Line(if ref == [] then name else ref, record.supplierRef, record.supplierName, record.uom,
         record.sentQty, record.acceptedQty)
  }

  function RustLine(row: Row): Line {
    LineOf(RecordOf(row))
  }

  function RustMatches(kind: Kind): Row -> bool {
    row => StatusOfKind(RecordOf(row).status, kind)
  }

  /** The records of a kind, as lines. */
  function MatchingLines(rows: seq<Row>, kind: Kind): seq<Line> {
    Map(Filter(rows, RustMatches(kind)), RustLine)
  }

  predicate OfKind(record: Record, kind: Kind) {
    StatusOfKind(record.status, kind)
  }

  function LineIfMatches(record: Record, kind: Kind): seq<Line> {
    if OfKind(record, kind) then [LineOf(record)] else []
  }

  lemma MatchedLines(record: Record, kind: Kind, lines: seq<Line>)
    ensures lines + LineIfMatches(record, kind) == if OfKind(record, kind) then lines + [LineOf(record)] else lines
  {
  }

  /** The map holds one record more: nothing changes unless the record is of the kind, and then only
      the entry of its own key. */
  method AddIfMatches(grouped: Grouped, record: Record, kind: string, ghost lines: seq<Line>) returns (after: Grouped)
    requires Holds(grouped, lines)
    ensures Holds(after, lines + LineIfMatches(record, ReadKind(kind)))
    ensures OfKind(record, ReadKind(kind)) ==> OnlyGains(grouped, after, LineOf(record))
    ensures !OfKind(record, ReadKind(kind)) ==> after == grouped
  {
    MatchedLines(record, ReadKind(kind), lines);
    if !OfKind(record, ReadKind(kind)) { return grouped; }
    after := AddLine(grouped, LineOf(record), lines);
  }

  /** The lines of the records of a kind. */
  function LinesFor(records: seq<Record>, kind: Kind): seq<Line> {
    Map(Filter(records, (record: Record) => OfKind(record, kind)), LineOf)
  }

  lemma LinesForNext(records: seq<Record>, i: nat, kind: Kind)
    requires i < |records|
    ensures LinesFor(records[..i + 1], kind) == LinesFor(records[..i], kind) + LineIfMatches(records[i], kind)
  {
    var p := (record: Record) => OfKind(record, kind);
    FilterNext(records, i, p);
    MapOfConcat(Filter(records[..i], p), if p(records[i]) then [records[i]] else [], LineOf);
  }

  lemma LinesForGrow(lines: seq<Line>, records: seq<Record>, i: nat, kind: Kind)
    requires i < |records|
    ensures lines + LinesFor(records[..i + 1], kind)
         == (lines + LinesFor(records[..i], kind)) + LineIfMatches(records[i], kind)
  {
    LinesForNext(records, i, kind);
    Associate(lines, LinesFor(records[..i], kind), LineIfMatches(records[i], kind));
  }

  lemma NoLinesYet(lines: seq<Line>, records: seq<Record>, kind: Kind)
    ensures lines + LinesFor(records[..0], kind) == lines
  {
    assert records[..0] == [];
  }

  /** One of the two loops. */
  method FoldRecords(grouped: Grouped, records: seq<Record>, kind: string, ghost lines: seq<Line>)
    returns (after: Grouped)
    requires Holds(grouped, lines)
    ensures Holds(after, lines + LinesFor(records, ReadKind(kind)))
  {
    after := grouped;
    NoLinesYet(lines, records, ReadKind(kind));
    for i := 0 to |records|
      invariant Holds(after, lines + LinesFor(records[..i], ReadKind(kind)))
    {
      LinesForGrow(lines, records, i, ReadKind(kind));
      after := AddIfMatches(after, records[i], kind, lines + LinesFor(records[..i], ReadKind(kind)));
    }
    assert records[..|records|] == records;
  }

  lemma NothingFolded()
    ensures Holds(Grouped([], map[]), [])
  {
  }

  lemma RecordsOfRows(receipts: seq<Receipt>, deliveries: seq<DeliveryNote>)
    ensures Map(receipts, ReceiptToRecord) == Map(Map(receipts, ReceiptRow()), RecordOf)
    ensures Map(deliveries, DeliveryToRecord) == Map(Map(deliveries, DeliveryRow()), RecordOf)
  {
  }

  lemma LinesForRows(rows: seq<Row>, kind: Kind)
    ensures LinesFor(Map(rows, RecordOf), kind) == MatchingLines(rows, kind)
  {
    FilterOfMap(rows, RecordOf, (record: Record) => OfKind(record, kind), RustMatches(kind));
    MapOfMap(Filter(rows, RustMatches(kind)), RecordOf, LineOf, RustLine);
  }

  lemma MatchingConcat(a: seq<Row>, b: seq<Row>, kind: Kind)
    ensures MatchingLines(a + b, kind) == MatchingLines(a, kind) + MatchingLines(b, kind)
  {
    FilterOfConcat(a, b, RustMatches(kind));
    MapOfConcat(Filter(a, RustMatches(kind)), Filter(b, RustMatches(kind)), RustLine);
  }

  lemma LinesTogether(receipts: seq<Receipt>, deliveries: seq<DeliveryNote>, kind: Kind)
    ensures LinesFor(Map(receipts, ReceiptToRecord), kind) + LinesFor(Map(deliveries, DeliveryToRecord), kind)
         == MatchingLines(RowsOf(receipts, deliveries), kind)
  {
    RecordsOfRows(receipts, deliveries);
    LinesForRows(Map(receipts, ReceiptRow()), kind);
    LinesForRows(Map(deliveries, DeliveryRow()), kind);
    MatchingConcat(Map(receipts, ReceiptRow()), Map(deliveries, DeliveryRow()), kind);
  }

  /** `build_werka_status_breakdown`. */
  method BuildWerkaStatusBreakdown(receipts: seq<Receipt>, deliveries: seq<DeliveryNote>, kind: string)
    returns (result: seq<Entry>)
    ensures result == Breakdown(MatchingLines(RowsOf(receipts, deliveries), ReadKind(kind)))
    ensures LargestFirst(result)
  {
    NothingFolded();
    var grouped := FoldRecords(Grouped([], map[]), Map(receipts, ReceiptToRecord), kind, []);
    ghost var lines := [] + LinesFor(Map(receipts, ReceiptToRecord), ReadKind(kind));
    assert lines == LinesFor(Map(receipts, ReceiptToRecord), ReadKind(kind));
    grouped := FoldRecords(grouped, Map(deliveries, DeliveryToRecord), kind, lines);
    LinesTogether(receipts, deliveries, ReadKind(kind));
    result := ListEntries(grouped, MatchingLines(RowsOf(receipts, deliveries), ReadKind(kind)));
  }

  // ------------------------------------------------------------------ the query

  function SqlStatus(row: Row): Status {
    match row case OfReceipt(r) => SqlReceiptStatus(r) case OfDelivery(d) => SqlDeliveryStatus(d)
  }

  /** The columns of `records`, and the group key of `matching_records`. */
  function SqlLineOf(ref: string, name: string, uom: string, sent: real, accepted: real): Line {
    Line(if SqlTrim(ref) == [] then SqlTrim(name) else SqlTrim(ref), ref, name, uom, sent, accepted)
  }

  function SqlLine(row: Row): Line {
    match row
    case OfReceipt(r) => SqlLineOf(r.supplier, r.supplierName, r.uom, SqlSent(r), SqlBreakdownAccepted(r))
    case OfDelivery(d) => SqlLineOf(d.customer, d.customerName, d.uom, d.qty, SqlDeliveryAccepted(d))
  }

  predicate NameAfter(a: string, b: string) {
    StrLe(b, a) && a != b
  }

  /** The window order: source_order ASC, sort_name DESC. */
  predicate Before(a: Row, b: Row) {
    match (a, b)
    case (OfReceipt(r), OfReceipt(q)) => NameAfter(r.name, q.name)
    case (OfReceipt(_), OfDelivery(_)) => true
    case (OfDelivery(_), OfReceipt(_)) => false
    case (OfDelivery(d), OfDelivery(e)) => NameAfter(d.name, e.name)
  }

  function InSqlGroup(kind: Kind, key: string): Row -> bool {
    row => StatusOfKind(SqlStatus(row), kind) && SqlLine(row).key == key
  }

  function SqlGroup(table: seq<Row>, kind: Kind, key: string): seq<Row> {
    Filter(table, InSqlGroup(kind, key))
  }

  /** ROW_NUMBER() = 1: nothing in the partition comes before it. */
  ghost predicate IsRankOne(row: Row, group: seq<Row>) {
    row in group && forall other | other in group :: !Before(other, row)
  }

  function SqlSentCol(): Row -> real { row => SqlLine(row).sent }
  function SqlAcceptedCol(): Row -> real { row => SqlLine(row).accepted }
  function SqlReturnedCol(): Row -> real { row => Returned(SqlLine(row)) }

  function SqlEntry(rank: Row, group: seq<Row>): Entry {
    Entry(SqlLine(rank).ref, SqlLine(rank).name, SqlLine(rank).uom, |group|,
          Sum(group, SqlSentCol()), Sum(group, SqlAcceptedCol()), Sum(group, SqlReturnedCol()))
  }

  /** One row of the GROUP BY. */
  ghost predicate IsSqlEntry(entry: Entry, table: seq<Row>, kind: Kind, key: string) {
    var group := SqlGroup(table, kind, key);
    exists rank :: IsRankOne(rank, group) && entry == SqlEntry(rank, group)
  }

  /** A result of the query: one entry per group key, ordered; the order of ties is open. */
  ghost predicate IsSqlBreakdown(result: seq<Entry>, keys: seq<string>, table: seq<Row>, kind: Kind) {
    && Distinct(keys)
    && (forall k :: k in keys <==> SqlGroup(table, kind, k) != [])
    && |result| == |keys|
    && (forall i | 0 <= i < |keys| :: IsSqlEntry(result[i], table, kind, keys[i]))
  }

  // ------------------------------------------------------------ row by row

  predicate AcceptedAgreesOn(row: Row) {
    RustLine(row).accepted == SqlLine(row).accepted
  }

  /** The reference, and the name when it stands in for the reference, have only blanks at their ends. */
  predicate KeyTexts(ref: string, name: string) {
    BlankEnds(ref) && (Trim(ref) == [] ==> BlankEnds(name))
  }

  /** Its key and status texts have only blanks at their ends, and its marker is read alike. */
  predicate PlainRow(row: Row) {
    match row
    case OfReceipt(r) => KeyTexts(r.supplier, r.supplierName) && BlankEnds(r.status) && SentAgrees(r)
    case OfDelivery(d) => KeyTexts(d.customer, d.customerName)
  }

  lemma KeysAlike(ref: string, name: string)
    requires KeyTexts(ref, name)
    ensures (if SqlTrim(ref) == [] then SqlTrim(name) else SqlTrim(ref))
         == (if Trim(ref) == [] then Trim(name) else Trim(ref))
  {
    TrimmedAlike(ref);
    TrimmedAlike(name);
  }

  /** Rust trims the texts of a row, the query keeps them as they are stored. */
  lemma LineTexts(row: Row)
    ensures RustLine(row).ref == Trim(SqlLine(row).ref)
    ensures RustLine(row).name == Trim(SqlLine(row).name)
    ensures RustLine(row).uom == Trim(SqlLine(row).uom)
  {
  }

  lemma RustKeyIs(ref: string, name: string)
    ensures (if Trim(Trim(ref)) == [] then Trim(Trim(name)) else Trim(Trim(ref)))
         == (if Trim(ref) == [] then Trim(name) else Trim(ref))
  {
    TrimTwice(ref);
    TrimTwice(name);
  }

  lemma PlainRowsAgree(row: Row)
    requires PlainRow(row)
    ensures RecordOf(row).status == SqlStatus(row)
    ensures SqlLine(row).key == RustLine(row).key && SqlLine(row).sent == RustLine(row).sent
  {
    match row {
      case OfReceipt(r) =>
        StatusAgrees(r);
        KeysAlike(r.supplier, r.supplierName);
        RustKeyIs(r.supplier, r.supplierName);
      case OfDelivery(d) =>
        DeliveryStatusAgrees(d);
        KeysAlike(d.customer, d.customerName);
        RustKeyIs(d.customer, d.customerName);
    }
  }

  /** A submitted receipt of positive total whose raw status is Cancelled. */
  predicate CancelledWithTotal(row: Row) {
    row.OfReceipt? && row.receipt.docStatus == 1 && RawCancelled(row.receipt) && row.receipt.totalQty > 0.0
  }

  /** A delivery note that is hidden and yet has an accepted quantity in the query. */
  predicate HiddenAccepted(row: Row) {
    row.OfDelivery? && HiddenWithQuantity(row.delivery)
  }

  /** Where the accepted quantities part, by kind: never for "confirmed"; for "returned" only on a
      submitted receipt with raw status Cancelled and a positive total; for "pending" only on a
      delivery note that is hidden although the customer confirmed it or kept part of it. */
  lemma AcceptedAgreesByKind(row: Row, kind: Kind)
    requires StatusOfKind(RecordOf(row).status, kind)
    ensures AcceptedAgreesOn(row) <==> !CancelledWithTotal(row) && !HiddenAccepted(row)
    ensures kind != ReturnedKind ==> !CancelledWithTotal(row)
    ensures kind != PendingKind ==> !HiddenAccepted(row)
  {
    match row {
      case OfReceipt(r) => BreakdownAcceptedAgrees(r);
      case OfDelivery(d) => DeliveryAcceptedAgrees(d);
    }
  }

  // ----------------------------------------------------------- group by group

  function InRustGroup(kind: Kind, key: string): Row -> bool {
    row => StatusOfKind(RecordOf(row).status, kind) && RustLine(row).key == key
  }

  function RustGroup(rows: seq<Row>, kind: Kind, key: string): seq<Row> {
    Filter(rows, InRustGroup(kind, key))
  }

  /** The lines of a key are the records of its rows. */
  lemma GroupIsRows(rows: seq<Row>, kind: Kind, key: string)
    ensures GroupOf(MatchingLines(rows, kind), key) == Map(RustGroup(rows, kind, key), RustLine)
  {
    GroupOfIsFilter(MatchingLines(rows, kind), key);
    FilterMapFilter(rows, RustMatches(kind), RustLine, HasKey(key), InRustGroup(kind, key));
  }

  /** Rows in the order the fold receives them: receipts first, names descending. */
  ghost predicate FetchOrder(rows: seq<Row>) {
    forall i, j | 0 <= i < j < |rows| :: Before(rows[i], rows[j])
  }

  ghost predicate AllPlain(rows: seq<Row>) {
    forall row | row in multiset(rows) :: PlainRow(row)
  }

  lemma {:induction false} FilterKeepsOrder(rows: seq<Row>, p: Row -> bool)
    requires FetchOrder(rows)
    ensures FetchOrder(Filter(rows, p))
  {
    if rows != [] {
      var init, row := rows[..|rows| - 1], rows[|rows| - 1];
      assert rows == init + [row];
      FilterKeepsOrder(init, p);
      var f := Filter(init, p);
      forall i | 0 <= i < |f| ensures Before(f[i], row) {
        assert f[i] in init;
        var k :| 0 <= k < |init| && init[k] == f[i];
        assert rows[k] == init[k];
      }
    }
  }

  lemma GroupsPermute(rows: seq<Row>, table: seq<Row>, kind: Kind, key: string)
    requires multiset(rows) == multiset(table) && AllPlain(rows)
    ensures multiset(SqlGroup(table, kind, key)) == multiset(RustGroup(rows, kind, key))
  {
    FilterPermutes(rows, table, InSqlGroup(kind, key));
    forall row | row in multiset(rows) ensures InSqlGroup(kind, key)(row) == InRustGroup(kind, key)(row) {
      PlainRowsAgree(row);
    }
    FilterAgrees(rows, InSqlGroup(kind, key), InRustGroup(kind, key));
  }

  lemma RankOneIsFirst(rank: Row, group: seq<Row>, ordered: seq<Row>)
    requires multiset(group) == multiset(ordered) && FetchOrder(ordered) && IsRankOne(rank, group)
    ensures ordered != [] && rank == ordered[0]
  {
    assert rank in multiset(group);
    var i :| 0 <= i < |ordered| && ordered[i] == rank;
    assert ordered[0] in multiset(ordered);
    assert forall j | 0 < j < |ordered| :: Before(ordered[0], ordered[j]);
  }

  lemma StrLeAsym(a: Row, b: Row)
    requires Before(a, b)
    ensures !Before(b, a)
  {
    match (a, b) {
      case (OfReceipt(r), OfReceipt(q)) => StrLeTotal(r.name, q.name);
      case (OfDelivery(d), OfDelivery(e)) => StrLeTotal(d.name, e.name);
      case _ =>
    }
  }

  lemma NotBeforeSelf(a: Row)
    ensures !Before(a, a)
  {
  }

  function RustEntry(rows: seq<Row>, kind: Kind, key: string): Entry
    requires GroupOf(MatchingLines(rows, kind), key) != []
  {
    EntryOf(GroupOf(MatchingLines(rows, kind), key))
  }

  function RustSentCol(): Row -> real { row => RustLine(row).sent }
  function RustAcceptedCol(): Row -> real { row => RustLine(row).accepted }
  function RustReturnedCol(): Row -> real { row => Returned(RustLine(row)) }

  /** The fold's entry, read off the rows of its group. */
  lemma RustEntryIs(rows: seq<Row>, kind: Kind, key: string)
    requires RustGroup(rows, kind, key) != []
    ensures var g := RustGroup(rows, kind, key);
            && GroupOf(MatchingLines(rows, kind), key) == Map(g, RustLine) != []
            && var e := RustEntry(rows, kind, key);
            e.ref == RustLine(g[0]).ref && e.name == RustLine(g[0]).name && e.count == |g|
            && e.uom == UomOf(Map(g, RustLine))
            && e.totalSent == Sum(g, RustSentCol()) && e.totalAccepted == Sum(g, RustAcceptedCol())
            && e.totalReturned == Sum(g, RustReturnedCol())
  {
    var g := RustGroup(rows, kind, key);
    GroupIsRows(rows, kind, key);
    SumOfMap(g, RustLine, SentOf(), RustSentCol());
    SumOfMap(g, RustLine, AcceptedOf(), RustAcceptedCol());
    SumOfMap(g, RustLine, ReturnedOf(), RustReturnedCol());
  }

  /** Quantities that are not negative. */
  predicate NonNegative(row: Row) {
    match row case OfReceipt(r) => r.totalQty >= 0.0 case OfDelivery(d) => d.qty >= 0.0
  }

  ghost predicate AllNonNegative(group: seq<Row>) {
    forall row | row in group :: NonNegative(row)
  }

  ghost predicate AcceptedAgreesIn(group: seq<Row>) {
    forall row | row in group :: AcceptedAgreesOn(row)
  }

  predicate HasUnit(row: Row) {
    !Blank(RustLine(row).uom)
  }

  /** The first row of a group has a unit, or none of its rows has. */
  ghost predicate UnitInFront(group: seq<Row>)
    requires group != []
  {
    HasUnit(group[0]) || forall row | row in group :: !HasUnit(row)
  }

  lemma UnitIsTight(row: Row)
    ensures Tight(RustLine(row).uom)
  {
    match row {
      case OfReceipt(r) => TrimTwice(r.uom);
      case OfDelivery(d) => TrimTwice(d.uom);
    }
  }

  lemma UnitOfGroupTight(g: seq<Row>)
    requires g != []
    ensures Tight(UomOf(Map(g, RustLine)))
  {
    var lines := Map(g, RustLine);
    forall i | 0 <= i < |lines| ensures Tight(lines[i].uom) { UnitIsTight(g[i]); }
    UomIsFirst(lines);
  }

  lemma UnitKept(g: seq<Row>)
    requires g != []
    ensures UomOf(Map(g, RustLine)) == RustLine(g[0]).uom <==> UnitInFront(g)
  {
    var lines := Map(g, RustLine);
    forall i | 0 <= i < |lines| ensures Tight(lines[i].uom) { UnitIsTight(g[i]); }
    UomIsFirst(lines);
    if UnitInFront(g) && !HasUnit(g[0]) {
      forall i | 0 <= i < |lines| ensures Blank(lines[i].uom) { assert g[i] in g; }
    }
    if (forall line | line in lines :: Blank(line.uom)) {
      forall i | 0 <= i < |g| ensures !HasUnit(g[i]) { assert lines[i] in lines; }
    }
  }

  /** The row's reference, name and unit as they are stored carry no white space. */
  predicate StoredRef(row: Row) {
    Tight(SqlLine(row).ref)
  }

  predicate StoredName(row: Row) {
    Tight(SqlLine(row).name)
  }

  predicate StoredUnit(row: Row) {
    Tight(SqlLine(row).uom)
  }

  lemma StoredTexts(row: Row)
    ensures SqlLine(row).ref == RustLine(row).ref <==> StoredRef(row)
    ensures SqlLine(row).name == RustLine(row).name <==> StoredName(row)
    ensures SqlLine(row).uom == RustLine(row).uom <==> StoredUnit(row)
  {
    LineTexts(row);
    TightStays(SqlLine(row).ref);
    TightStays(SqlLine(row).name);
    TightStays(SqlLine(row).uom);
  }

  /** The query's unit, the stored one of the first row, is the fold's. */
  lemma UnitShown(g: seq<Row>)
    requires g != []
    ensures SqlLine(g[0]).uom == UomOf(Map(g, RustLine)) <==> UnitInFront(g) && StoredUnit(g[0])
  {
    UnitKept(g);
    UnitOfGroupTight(g);
    StoredTexts(g[0]);
  }

  /** On one group the query gives the fold's count and sent total, and its representative, whose
      texts it shows as they are stored: the reference, the name and the unit are the fold's exactly
      when the stored ones carry no white space, the unit only when the representative has one or no
      row of the group has. The accepted total is the fold's exactly when every row of the group
      agrees on its accepted quantity (for "pending" with quantities that are not negative), and then
      the returned total too. */
  lemma GroupRefines(rows: seq<Row>, table: seq<Row>, kind: Kind, key: string, entry: Entry)
    requires multiset(rows) == multiset(table) && AllPlain(rows) && FetchOrder(rows)
    requires IsSqlEntry(entry, table, kind, key)
    ensures GroupOf(MatchingLines(rows, kind), key) != []
    ensures var e, g := RustEntry(rows, kind, key), RustGroup(rows, kind, key);
            && g != [] && entry.count == e.count && entry.totalSent == e.totalSent
            && Trim(entry.ref) == e.ref && Trim(entry.name) == e.name
            && (entry.ref == e.ref <==> StoredRef(g[0])) && (entry.name == e.name <==> StoredName(g[0]))
            && (entry.uom == e.uom <==> UnitInFront(g) && StoredUnit(g[0]))
            && (AcceptedAgreesIn(g)
                ==> entry.totalAccepted == e.totalAccepted && entry.totalReturned == e.totalReturned)
            && (entry.totalAccepted == e.totalAccepted && (kind == PendingKind ==> AllNonNegative(g))
                ==> AcceptedAgreesIn(g))
  {
    var g := RustGroup(rows, kind, key);
    SqlEntryIs(rows, table, kind, key, entry);
    RustEntryIs(rows, kind, key);
    GroupSums(rows, g);
    if kind == PendingKind ==> AllNonNegative(g) { AcceptedDominates(g, kind); }
    LineTexts(g[0]);
    StoredTexts(g[0]);
    UnitShown(g);
  }

  /** The query's entry, read off the same rows in fetch order. */
  lemma SqlEntryIs(rows: seq<Row>, table: seq<Row>, kind: Kind, key: string, entry: Entry)
    requires multiset(rows) == multiset(table) && AllPlain(rows) && FetchOrder(rows)
    requires IsSqlEntry(entry, table, kind, key)
    ensures RustGroup(rows, kind, key) != []
         && entry == SqlEntry(RustGroup(rows, kind, key)[0], RustGroup(rows, kind, key))
  {
    var group, g := SqlGroup(table, kind, key), RustGroup(rows, kind, key);
    GroupsPermute(rows, table, kind, key);
    FilterKeepsOrder(rows, InRustGroup(kind, key));
    var rank :| IsRankOne(rank, group) && entry == SqlEntry(rank, group);
    RankOneIsFirst(rank, group, g);
    SizeIs(group, g);
    SumPermutes(group, g, SqlSentCol());
    SumPermutes(group, g, SqlAcceptedCol());
    SumPermutes(group, g, SqlReturnedCol());
  }

  lemma SizeIs(a: seq<Row>, b: seq<Row>)
    requires multiset(a) == multiset(b)
    ensures |a| == |b|
  {
    assert |multiset(a)| == |a| && |multiset(b)| == |b|;
  }

  lemma GroupSums(rows: seq<Row>, g: seq<Row>)
    requires AllPlain(rows) && forall row | row in g :: row in rows
    ensures Sum(g, SqlSentCol()) == Sum(g, RustSentCol())
    ensures AcceptedAgreesIn(g) ==>
              Sum(g, SqlAcceptedCol()) == Sum(g, RustAcceptedCol())
              && Sum(g, SqlReturnedCol()) == Sum(g, RustReturnedCol())
  {
    forall row | row in g ensures SqlLine(row).sent == RustLine(row).sent { PlainRowsAgree(row); }
    SumAgrees(g, SqlSentCol(), RustSentCol());
    if AcceptedAgreesIn(g) {
      SumAgrees(g, SqlAcceptedCol(), RustAcceptedCol());
      SumAgrees(g, SqlReturnedCol(), RustReturnedCol());
    }
  }

  lemma QueryAcceptsNoLess(row: Row, kind: Kind)
    requires StatusOfKind(RecordOf(row).status, kind)
    requires kind == PendingKind ==> NonNegative(row)
    ensures RustLine(row).accepted <= SqlLine(row).accepted
  {
    match row {
      case OfReceipt(r) => BreakdownAcceptedAgrees(r);
      case OfDelivery(d) => DeliveryAcceptedAgrees(d);
    }
  }

  // ------------------------------------------------------------ the whole result

  /** Both sides have the same groups. */
  lemma SameKeys(rows: seq<Row>, table: seq<Row>, kind: Kind, key: string)
    requires multiset(rows) == multiset(table) && AllPlain(rows)
    ensures SqlGroup(table, kind, key) != [] <==> key in KeysOf(MatchingLines(rows, kind))
  {
    GroupsPermute(rows, table, kind, key);
    SizeIs(SqlGroup(table, kind, key), RustGroup(rows, kind, key));
    GroupIsRows(rows, kind, key);
    NewGroupIsEmpty(MatchingLines(rows, kind), key);
  }

  lemma FirstIsRankOne(group: seq<Row>, ordered: seq<Row>)
    requires multiset(group) == multiset(ordered) && FetchOrder(ordered) && ordered != []
    ensures IsRankOne(ordered[0], group)
  {
    assert ordered[0] in multiset(ordered) && ordered[0] in multiset(group);
    forall other | other in group ensures !Before(other, ordered[0]) {
      assert other in multiset(group);
      var i :| 0 <= i < |ordered| && ordered[i] == other;
      if i > 0 { StrLeAsym(ordered[0], other); } else { NotBeforeSelf(other); }
    }
  }

  /** The query's entry of a key, taken at the first row in fetch order. */
  function QueriedEntry(rows: seq<Row>, table: seq<Row>, kind: Kind): string -> Entry {
    (key: string) =>
      if SqlGroup(rows, kind, key) != [] then SqlEntry(SqlGroup(rows, kind, key)[0], SqlGroup(table, kind, key))
      else Entry("", "", "", 0, 0.0, 0.0, 0.0)
  }

  lemma QueriedEntryIs(rows: seq<Row>, table: seq<Row>, kind: Kind, key: string)
    requires multiset(rows) == multiset(table) && FetchOrder(rows) && SqlGroup(table, kind, key) != []
    ensures IsSqlEntry(QueriedEntry(rows, table, kind)(key), table, kind, key)
  {
    var group, g := SqlGroup(table, kind, key), SqlGroup(rows, kind, key);
    FilterPermutes(rows, table, InSqlGroup(kind, key));
    SizeIs(group, g);
    FilterKeepsOrder(rows, InSqlGroup(kind, key));
    FirstIsRankOne(group, g);
  }

  function SqlMatches(kind: Kind): Row -> bool {
    row => StatusOfKind(SqlStatus(row), kind)
  }

  /** The group keys the query finds. */
  function QueriedKeys(rows: seq<Row>, kind: Kind): seq<string> {
    KeysOf(Map(Filter(rows, SqlMatches(kind)), SqlLine))
  }

  lemma MappedKey(rows: seq<Row>, key: string)
    ensures key in KeysOf(Map(rows, SqlLine)) <==> exists row :: row in rows && SqlLine(row).key == key
  {
    var lines := Map(rows, SqlLine);
    if line :| line in lines && line.key == key {
      var i :| 0 <= i < |lines| && lines[i] == line;
      assert rows[i] in rows;
    }
    if row :| row in rows && SqlLine(row).key == key {
      var i :| 0 <= i < |rows| && rows[i] == row;
      assert lines[i] in lines;
    }
  }

  lemma QueriedKeysAre(rows: seq<Row>, table: seq<Row>, kind: Kind, key: string)
    requires multiset(rows) == multiset(table)
    ensures key in QueriedKeys(rows, kind) <==> SqlGroup(table, kind, key) != []
  {
    FilterPermutes(rows, table, InSqlGroup(kind, key));
    SizeIs(SqlGroup(rows, kind, key), SqlGroup(table, kind, key));
    MappedKey(Filter(rows, SqlMatches(kind)), key);
    GroupHasRow(rows, kind, key);
  }

  lemma GroupHasRow(rows: seq<Row>, kind: Kind, key: string)
    ensures SqlGroup(rows, kind, key) != []
       <==> exists row :: row in Filter(rows, SqlMatches(kind)) && SqlLine(row).key == key
  {
    var group := SqlGroup(rows, kind, key);
    if group != [] {
      assert group[0] in group;
      assert group[0] in Filter(rows, SqlMatches(kind));
    }
    if row :| row in Filter(rows, SqlMatches(kind)) && SqlLine(row).key == key {
      assert InSqlGroup(kind, key)(row) && row in group;
    }
  }

  function ByEntry(read: string -> Entry): (string, string) -> bool {
    (a: string, b: string) => EntryLe(read(a), read(b))
  }

  lemma ByEntrySorts(keys: seq<string>, read: string -> Entry)
    ensures SortedBy(Map(SortBy(keys, ByEntry(read)), read), EntryOrdering())
    ensures multiset(SortBy(keys, ByEntry(read))) == multiset(keys)
  {
    var le := ByEntry(read);
    EntryPreorder();
    forall a, b ensures le(a, b) || le(b, a) {
      assert EntryOrdering()(read(a), read(b)) || EntryOrdering()(read(b), read(a));
    }
    forall a, b, c | le(a, b) && le(b, c) ensures le(a, c) {
      assert EntryOrdering()(read(a), read(b)) && EntryOrdering()(read(b), read(c));
    }
    SortBySorted(keys, le);
    SortByPermutes(keys, le);
  }

  /** The query always has an ordered result, whatever the kind, the stored texts and the arrangement
      of the table. */
  lemma QueryHasResult(rows: seq<Row>, table: seq<Row>, kind: Kind) returns (result: seq<Entry>, keys: seq<string>)
    requires multiset(rows) == multiset(table) && FetchOrder(rows)
    ensures IsSqlBreakdown(result, keys, table, kind) && LargestFirst(result)
  {
    var read := QueriedEntry(rows, table, kind);
    var listed := QueriedKeys(rows, kind);
    keys := SortBy(listed, ByEntry(read));
    result := Map(keys, read);
    ByEntrySorts(listed, read);
    LargestFirstIs(result);
    KeysDistinct(Map(Filter(rows, SqlMatches(kind)), SqlLine));
    PermutedDistinct(listed, keys);
    forall k ensures k in keys <==> SqlGroup(table, kind, k) != [] {
      QueriedKeysAre(rows, table, kind, k);
      assert k in keys <==> k in multiset(keys);
      assert k in listed <==> k in multiset(listed);
    }
    forall i | 0 <= i < |keys| ensures IsSqlEntry(result[i], table, kind, keys[i]) {
      assert keys[i] in keys;
      QueriedEntryIs(rows, table, kind, keys[i]);
    }
  }

  lemma CountTwice(b: seq<string>, i: nat, j: nat)
    requires i < j < |b| && b[i] == b[j]
    ensures multiset(b)[b[i]] >= 2
  {
    assert b == b[..i] + [b[i]] + b[i + 1..j] + [b[j]] + b[j + 1..];
  }

  lemma PermutedDistinct(a: seq<string>, b: seq<string>)
    requires Distinct(a) && multiset(a) == multiset(b)
    ensures Distinct(b)
  {
    forall i, j | 0 <= i < j < |b| ensures b[i] != b[j] {
      CountDistinct(a, b[i]);
      if b[i] == b[j] { CountTwice(b, i, j); }
    }
  }

  function EntryAt(lines: seq<Line>): string -> Entry {
    key => if GroupOf(lines, key) != [] then EntryOf(GroupOf(lines, key)) else Entry("", "", "", 0, 0.0, 0.0, 0.0)
  }

  lemma GroupEntriesIsMap(keys: seq<string>, lines: seq<Line>)
    requires forall k | k in keys :: GroupOf(lines, k) != []
    ensures GroupEntries(keys, lines) == Map(keys, EntryAt(lines))
  {
    forall i | 0 <= i < |keys| ensures GroupEntries(keys, lines)[i] == Map(keys, EntryAt(lines))[i] {
      assert keys[i] in keys;
    }
  }

  lemma BreakdownIsMap(lines: seq<Line>)
    ensures multiset(Breakdown(lines)) == multiset(Map(KeysOf(lines), EntryAt(lines)))
  {
    BreakdownFacts(lines);
    GroupEntriesIsMap(KeysOf(lines), lines);
  }

  /** Every row of the kind has the same accepted quantity on both sides. */
  ghost predicate AcceptedAgrees(rows: seq<Row>, kind: Kind) {
    forall row | row in multiset(rows) && StatusOfKind(RecordOf(row).status, kind) :: AcceptedAgreesOn(row)
  }

  /** What a query shows of a group is what the fold shows: the representative's texts are stored
      without white space, and it has a unit or no row has. */
  ghost predicate ShownAlike(g: seq<Row>)
    requires g != []
  {
    StoredRef(g[0]) && StoredName(g[0]) && StoredUnit(g[0]) && UnitInFront(g)
  }

  ghost predicate FrontsShownAlike(rows: seq<Row>, kind: Kind) {
    forall key | RustGroup(rows, kind, key) != [] :: ShownAlike(RustGroup(rows, kind, key))
  }

  /** An entry with its representative's texts trimmed and without its unit column. */
  function Bare(entry: Entry): Entry {
    entry.(ref := Trim(entry.ref), name := Trim(entry.name), uom := "")
  }

  function BareAt(lines: seq<Line>): string -> Entry {
    (key: string) => Bare(EntryAt(lines)(key))
  }

  lemma SameBare(a: Entry, b: Entry)
    requires Trim(a.ref) == b.ref && Trim(a.name) == b.name && a.count == b.count && a.totalSent == b.totalSent
    requires a.totalAccepted == b.totalAccepted && a.totalReturned == b.totalReturned
    ensures Bare(a) == Bare(b)
    ensures a == b <==> a.ref == b.ref && a.name == b.name && a.uom == b.uom
  {
    TrimTwice(a.ref);
    TrimTwice(a.name);
  }

  lemma GroupAgrees(rows: seq<Row>, kind: Kind, key: string)
    requires AcceptedAgrees(rows, kind)
    ensures AcceptedAgreesIn(RustGroup(rows, kind, key))
  {
    forall row | row in RustGroup(rows, kind, key) ensures AcceptedAgreesOn(row) {
      assert row in multiset(rows);
    }
  }

  lemma RefinedEntry(rows: seq<Row>, table: seq<Row>, kind: Kind, key: string, entry: Entry)
    requires multiset(rows) == multiset(table) && AllPlain(rows) && FetchOrder(rows) && AcceptedAgrees(rows, kind)
    requires IsSqlEntry(entry, table, kind, key)
    ensures GroupOf(MatchingLines(rows, kind), key) != [] && RustGroup(rows, kind, key) != []
    ensures Bare(entry) == Bare(RustEntry(rows, kind, key))
    ensures entry == RustEntry(rows, kind, key) <==> ShownAlike(RustGroup(rows, kind, key))
  {
    GroupRefines(rows, table, kind, key, entry);
    GroupAgrees(rows, kind, key);
    SameBare(entry, RustEntry(rows, kind, key));
  }

  lemma SameEntry(rows: seq<Row>, table: seq<Row>, kind: Kind, key: string, entry: Entry)
    requires multiset(rows) == multiset(table) && AllPlain(rows) && FetchOrder(rows) && AcceptedAgrees(rows, kind)
    requires IsSqlEntry(entry, table, kind, key)
    ensures Bare(entry) == BareAt(MatchingLines(rows, kind))(key)
    ensures RustGroup(rows, kind, key) != []
    ensures entry == EntryAt(MatchingLines(rows, kind))(key) <==> ShownAlike(RustGroup(rows, kind, key))
  {
    RefinedEntry(rows, table, kind, key, entry);
    assert EntryAt(MatchingLines(rows, kind))(key) == RustEntry(rows, kind, key);
  }

  lemma QueryIsBareMap(rows: seq<Row>, table: seq<Row>, kind: Kind, result: seq<Entry>, keys: seq<string>)
    requires multiset(rows) == multiset(table) && AllPlain(rows) && FetchOrder(rows) && AcceptedAgrees(rows, kind)
    requires IsSqlBreakdown(result, keys, table, kind)
    ensures Map(result, Bare) == Map(keys, BareAt(MatchingLines(rows, kind)))
  {
    var lines := MatchingLines(rows, kind);
    forall i | 0 <= i < |keys| ensures Bare(result[i]) == BareAt(lines)(keys[i]) {
      SameEntry(rows, table, kind, keys[i], result[i]);
    }
  }

  lemma QueryEntryIs(rows: seq<Row>, table: seq<Row>, kind: Kind, result: seq<Entry>, keys: seq<string>, i: nat)
    requires multiset(rows) == multiset(table) && AllPlain(rows) && FetchOrder(rows) && AcceptedAgrees(rows, kind)
    requires IsSqlBreakdown(result, keys, table, kind) && FrontsShownAlike(rows, kind) && i < |keys|
    ensures result[i] == EntryAt(MatchingLines(rows, kind))(keys[i])
  {
    SameEntry(rows, table, kind, keys[i], result[i]);
  }

  lemma QueryIsMap(rows: seq<Row>, table: seq<Row>, kind: Kind, result: seq<Entry>, keys: seq<string>)
    requires multiset(rows) == multiset(table) && AllPlain(rows) && FetchOrder(rows) && AcceptedAgrees(rows, kind)
    requires IsSqlBreakdown(result, keys, table, kind) && FrontsShownAlike(rows, kind)
    ensures result == Map(keys, EntryAt(MatchingLines(rows, kind)))
  {
    var lines := MatchingLines(rows, kind);
    forall i | 0 <= i < |keys| ensures result[i] == EntryAt(lines)(keys[i]) {
      QueryEntryIs(rows, table, kind, result, keys, i);
    }
    MapIs(keys, EntryAt(lines), result);
  }

  lemma SameKeyList(rows: seq<Row>, table: seq<Row>, kind: Kind, result: seq<Entry>, keys: seq<string>)
    requires multiset(rows) == multiset(table) && AllPlain(rows)
    requires IsSqlBreakdown(result, keys, table, kind)
    ensures multiset(keys) == multiset(KeysOf(MatchingLines(rows, kind)))
  {
    KeysDistinct(MatchingLines(rows, kind));
    forall key ensures key in keys <==> key in KeysOf(MatchingLines(rows, kind)) {
      SameKeys(rows, table, kind, key);
    }
    SameMembers(keys, KeysOf(MatchingLines(rows, kind)));
  }

  ghost predicate NoTies(entries: seq<Entry>) {
    forall a, b | && a in multiset(entries) && b in multiset(entries)
                  && a.count == b.count && Lower(a.name) == Lower(b.name) :: a == b
  }

  /** Two ordered listings of the same entries, none of them tied, are one listing. */
  lemma SortedOnce(a: seq<Entry>, b: seq<Entry>)
    requires SortedBy(a, EntryOrdering()) && SortedBy(b, EntryOrdering()) && multiset(a) == multiset(b) && NoTies(a)
    ensures a == b
  {
    forall x, y | x in multiset(a) && y in multiset(a) && EntryOrdering()(x, y) && EntryOrdering()(y, x)
      ensures x == y
    {
      StrLeTotal(Lower(x.name), Lower(y.name));
    }
    SortedUnique(a, b, EntryOrdering());
  }

  /** No entry's name has white space at its ends. */
  ghost predicate TightNames(entries: seq<Entry>) {
    forall i | 0 <= i < |entries| :: Tight(entries[i].name)
  }

  lemma BareSorted(entries: seq<Entry>)
    requires SortedBy(entries, EntryOrdering()) && TightNames(entries)
    ensures SortedBy(Map(entries, Bare), EntryOrdering())
  {
    forall i, j | 0 <= i < j < |entries| ensures EntryOrdering()(Bare(entries[i]), Bare(entries[j])) {
      assert EntryOrdering()(entries[i], entries[j]);
      TightStays(entries[i].name);
      TightStays(entries[j].name);
    }
  }

  lemma BareBreakdown(lines: seq<Line>)
    ensures multiset(Map(Breakdown(lines), Bare)) == multiset(Map(KeysOf(lines), BareAt(lines)))
  {
    BreakdownIsMap(lines);
    MapPermutes(Breakdown(lines), Map(KeysOf(lines), EntryAt(lines)), Bare);
    MapOfMap(KeysOf(lines), EntryAt(lines), Bare, BareAt(lines));
  }

  /** The texts of a fold's entry are trimmed. */
  lemma FoldTexts(rows: seq<Row>, kind: Kind, entry: Entry)
    requires entry in multiset(Breakdown(MatchingLines(rows, kind)))
    ensures Tight(entry.ref) && Tight(entry.name) && Tight(entry.uom)
  {
    var key := EntryHasKey(MatchingLines(rows, kind), entry);
    GroupIsRows(rows, kind, key);
    var g := RustGroup(rows, kind, key);
    LineTexts(g[0]);
    TrimTwice(SqlLine(g[0]).ref);
    TrimTwice(SqlLine(g[0]).name);
    UnitOfGroupTight(g);
  }

  lemma FoldNamesTight(rows: seq<Row>, kind: Kind)
    ensures TightNames(Breakdown(MatchingLines(rows, kind)))
  {
    var fold := Breakdown(MatchingLines(rows, kind));
    forall i | 0 <= i < |fold| ensures Tight(fold[i].name) {
      assert fold[i] in multiset(fold);
      FoldTexts(rows, kind, fold[i]);
    }
  }

  /** The query replaces the fold: over any arrangement of the table, every result of the query has
      the fold's keys, representatives, counts and three totals, whatever white space and units the
      rows carry; and they come in the fold's order when the shown names carry no white space and no
      two groups tie in count and lowered name. */
  lemma PushdownKeepsBreakdown(rows: seq<Row>, table: seq<Row>, kind: Kind, result: seq<Entry>, keys: seq<string>)
    requires multiset(rows) == multiset(table) && AllPlain(rows) && FetchOrder(rows) && AcceptedAgrees(rows, kind)
    requires IsSqlBreakdown(result, keys, table, kind) && LargestFirst(result)
    ensures var fold := Map(Breakdown(MatchingLines(rows, kind)), Bare);
            && multiset(Map(result, Bare)) == multiset(fold)
            && (TightNames(result) && NoTies(Map(result, Bare)) ==> Map(result, Bare) == fold)
  {
    var lines := MatchingLines(rows, kind);
    QueryIsBareMap(rows, table, kind, result, keys);
    SameKeyList(rows, table, kind, result, keys);
    MapPermutes(keys, KeysOf(lines), BareAt(lines));
    BareBreakdown(lines);
    if TightNames(result) && NoTies(Map(result, Bare)) {
      LargestFirstIs(result);
      BareSorted(result);
      FoldNamesTight(rows, kind);
      BreakdownFacts(lines);
      BareSorted(Breakdown(lines));
      SortedOnce(Map(result, Bare), Map(Breakdown(lines), Bare));
    }
  }

  function AcceptedColumn(): Entry -> real { (entry: Entry) => entry.totalAccepted }

  function QueriedAccepted(table: seq<Row>, kind: Kind): string -> real {
    (key: string) => Sum(SqlGroup(table, kind, key), SqlAcceptedCol())
  }

  function FoldedAccepted(lines: seq<Line>): string -> real {
    (key: string) => EntryAt(lines)(key).totalAccepted
  }

  lemma {:induction false} SumOfColumn(entries: seq<Entry>, keys: seq<string>, f: string -> real)
    requires |entries| == |keys| && forall i | 0 <= i < |keys| :: entries[i].totalAccepted == f(keys[i])
    ensures Sum(entries, AcceptedColumn()) == Sum(keys, f)
  {
    if keys != [] {
      var n := |keys| - 1;
      SumOfColumn(entries[..n], keys[..n], f);
    }
  }

  lemma QueriedColumn(result: seq<Entry>, keys: seq<string>, table: seq<Row>, kind: Kind)
    requires IsSqlBreakdown(result, keys, table, kind)
    ensures Sum(Map(result, Bare), AcceptedColumn()) == Sum(keys, QueriedAccepted(table, kind))
  {
    var entries := Map(result, Bare);
    forall i | 0 <= i < |keys| ensures entries[i].totalAccepted == QueriedAccepted(table, kind)(keys[i]) {
      assert IsSqlEntry(result[i], table, kind, keys[i]);
    }
    SumOfColumn(entries, keys, QueriedAccepted(table, kind));
  }

  lemma ColumnAt(lines: seq<Line>, key: string)
    ensures AcceptedColumn()(BareAt(lines)(key)) == FoldedAccepted(lines)(key)
  {
    var entry := EntryAt(lines)(key);
    assert BareAt(lines)(key) == Bare(entry);
    assert Bare(entry).totalAccepted == entry.totalAccepted;
  }

  lemma ListedColumn(lines: seq<Line>, keys: seq<string>)
    ensures Sum(Map(keys, BareAt(lines)), AcceptedColumn()) == Sum(keys, FoldedAccepted(lines))
  {
    forall key | key in keys ensures AcceptedColumn()(BareAt(lines)(key)) == FoldedAccepted(lines)(key) {
      ColumnAt(lines, key);
    }
    SumOfMap(keys, BareAt(lines), AcceptedColumn(), FoldedAccepted(lines));
  }

  lemma FoldedColumn(lines: seq<Line>, keys: seq<string>)
    requires multiset(keys) == multiset(KeysOf(lines))
    ensures Sum(Map(Breakdown(lines), Bare), AcceptedColumn()) == Sum(keys, FoldedAccepted(lines))
  {
    BareBreakdown(lines);
    SumPermutes(Map(Breakdown(lines), Bare), Map(KeysOf(lines), BareAt(lines)), AcceptedColumn());
    ListedColumn(lines, KeysOf(lines));
    SumPermutes(keys, KeysOf(lines), FoldedAccepted(lines));
  }

  lemma AcceptedDominates(g: seq<Row>, kind: Kind)
    requires forall row | row in g :: PlainRow(row) && StatusOfKind(RecordOf(row).status, kind)
    requires forall row | row in g :: kind == PendingKind ==> NonNegative(row)
    ensures Sum(g, RustAcceptedCol()) <= Sum(g, SqlAcceptedCol())
    ensures Sum(g, RustAcceptedCol()) == Sum(g, SqlAcceptedCol()) ==> AcceptedAgreesIn(g)
  {
    forall row | row in g ensures RustAcceptedCol()(row) <= SqlAcceptedCol()(row) {
      QueryAcceptsNoLess(row, kind);
    }
    SumDominates(g, RustAcceptedCol(), SqlAcceptedCol());
  }

  lemma FoldedTotal(rows: seq<Row>, kind: Kind, key: string)
    requires RustGroup(rows, kind, key) != []
    ensures FoldedAccepted(MatchingLines(rows, kind))(key) == Sum(RustGroup(rows, kind, key), RustAcceptedCol())
  {
    RustEntryIs(rows, kind, key);
    assert EntryAt(MatchingLines(rows, kind))(key) == RustEntry(rows, kind, key);
  }

  lemma QueriedTotal(rows: seq<Row>, table: seq<Row>, kind: Kind, key: string)
    requires multiset(rows) == multiset(table) && AllPlain(rows)
    ensures QueriedAccepted(table, kind)(key) == Sum(RustGroup(rows, kind, key), SqlAcceptedCol())
    ensures SqlGroup(table, kind, key) != [] <==> RustGroup(rows, kind, key) != []
  {
    var group, g := SqlGroup(table, kind, key), RustGroup(rows, kind, key);
    GroupsPermute(rows, table, kind, key);
    SizeIs(group, g);
    SumPermutes(group, g, SqlAcceptedCol());
  }

  lemma GroupRowsAre(rows: seq<Row>, kind: Kind, key: string)
    requires AllPlain(rows) && (kind == PendingKind ==> AllNonNegative(rows))
    ensures forall row | row in RustGroup(rows, kind, key) ::
              PlainRow(row) && StatusOfKind(RecordOf(row).status, kind) && (kind == PendingKind ==> NonNegative(row))
  {
    forall row | row in RustGroup(rows, kind, key) ensures PlainRow(row) && (kind == PendingKind ==> NonNegative(row)) {
      assert row in rows && row in multiset(rows);
    }
  }

  /** On one key the query's accepted total is never smaller, and equal only when the group agrees. */
  lemma AcceptedByKey(rows: seq<Row>, table: seq<Row>, kind: Kind, key: string)
    requires multiset(rows) == multiset(table) && AllPlain(rows) && (kind == PendingKind ==> AllNonNegative(rows))
    requires RustGroup(rows, kind, key) != []
    ensures FoldedAccepted(MatchingLines(rows, kind))(key) <= QueriedAccepted(table, kind)(key)
    ensures FoldedAccepted(MatchingLines(rows, kind))(key) == QueriedAccepted(table, kind)(key) ==>
              AcceptedAgreesIn(RustGroup(rows, kind, key))
  {
    FoldedTotal(rows, kind, key);
    QueriedTotal(rows, table, kind, key);
    GroupRowsAre(rows, kind, key);
    AcceptedDominates(RustGroup(rows, kind, key), kind);
  }

  lemma EqualByKey(rows: seq<Row>, table: seq<Row>, kind: Kind, keys: seq<string>)
    requires multiset(rows) == multiset(table) && AllPlain(rows) && (kind == PendingKind ==> AllNonNegative(rows))
    requires forall key | key in keys :: RustGroup(rows, kind, key) != []
    requires Sum(keys, QueriedAccepted(table, kind)) == Sum(keys, FoldedAccepted(MatchingLines(rows, kind)))
    ensures forall key | key in keys :: AcceptedAgreesIn(RustGroup(rows, kind, key))
  {
    var folded, queried := FoldedAccepted(MatchingLines(rows, kind)), QueriedAccepted(table, kind);
    forall key | key in keys
      ensures folded(key) <= queried(key)
      ensures folded(key) == queried(key) ==> AcceptedAgreesIn(RustGroup(rows, kind, key))
    {
      AcceptedByKey(rows, table, kind, key);
    }
    SumDominates(keys, folded, queried);
  }

  lemma RowInItsGroup(rows: seq<Row>, kind: Kind, row: Row)
    requires row in multiset(rows) && StatusOfKind(RecordOf(row).status, kind)
    ensures row in RustGroup(rows, kind, RustLine(row).key)
  {
    assert row in rows;
  }

  lemma GroupsAgree(rows: seq<Row>, kind: Kind)
    requires forall key | RustGroup(rows, kind, key) != [] :: AcceptedAgreesIn(RustGroup(rows, kind, key))
    ensures AcceptedAgrees(rows, kind)
  {
    forall row | row in multiset(rows) && StatusOfKind(RecordOf(row).status, kind) ensures AcceptedAgreesOn(row) {
      RowInItsGroup(rows, kind, row);
    }
  }

  lemma EqualColumnsAgree(rows: seq<Row>, table: seq<Row>, kind: Kind, keys: seq<string>)
    requires multiset(rows) == multiset(table) && AllPlain(rows) && (kind == PendingKind ==> AllNonNegative(rows))
    requires forall key :: key in keys <==> SqlGroup(table, kind, key) != []
    requires Sum(keys, QueriedAccepted(table, kind)) == Sum(keys, FoldedAccepted(MatchingLines(rows, kind)))
    ensures AcceptedAgrees(rows, kind)
  {
    forall key ensures key in keys <==> RustGroup(rows, kind, key) != [] { QueriedTotal(rows, table, kind, key); }
    EqualByKey(rows, table, kind, keys);
    GroupsAgree(rows, kind);
  }

  /** And only then: a result has the fold's entries, texts trimmed and units aside, exactly when
      every row of the kind has the same accepted quantity on both sides. */
  lemma PushdownExactly(rows: seq<Row>, table: seq<Row>, kind: Kind, result: seq<Entry>, keys: seq<string>)
    requires multiset(rows) == multiset(table) && AllPlain(rows) && FetchOrder(rows)
    requires kind == PendingKind ==> AllNonNegative(rows)
    requires IsSqlBreakdown(result, keys, table, kind) && LargestFirst(result)
    ensures multiset(Map(result, Bare)) == multiset(Map(Breakdown(MatchingLines(rows, kind)), Bare))
       <==> AcceptedAgrees(rows, kind)
  {
    var fold := Map(Breakdown(MatchingLines(rows, kind)), Bare);
    if multiset(Map(result, Bare)) == multiset(fold) {
      SumPermutes(Map(result, Bare), fold, AcceptedColumn());
      SameKeyList(rows, table, kind, result, keys);
      QueriedColumn(result, keys, table, kind);
      FoldedColumn(MatchingLines(rows, kind), keys);
      EqualColumnsAgree(rows, table, kind, keys);
    }
    if AcceptedAgrees(rows, kind) { PushdownKeepsBreakdown(rows, table, kind, result, keys); }
  }

  /** The key of an entry, read off its texts. */
  function EntryKey(entry: Entry): string {
    if Trim(entry.ref) == [] then Trim(entry.name) else Trim(entry.ref)
  }

  lemma EntryKeyIs(rows: seq<Row>, kind: Kind, key: string)
    requires GroupOf(MatchingLines(rows, kind), key) != []
    ensures EntryKey(EntryAt(MatchingLines(rows, kind))(key)) == key
  {
    GroupIsRows(rows, kind, key);
    var g := RustGroup(rows, kind, key);
    assert g[0] in g && EntryAt(MatchingLines(rows, kind))(key).ref == RustLine(g[0]).ref;
    LineKey(g[0]);
  }

  lemma LineKey(row: Row)
    ensures RustLine(row).key
         == if Trim(RustLine(row).ref) == [] then Trim(RustLine(row).name) else Trim(RustLine(row).ref)
  {
  }

  lemma SameTextsSameKey(a: Entry, b: Entry)
    requires Bare(a) == Bare(b)
    ensures EntryKey(a) == EntryKey(b)
  {
  }

  /** An entry of the result that the fold lists too is the fold's of the same key. */
  lemma ListedAtItsKey(rows: seq<Row>, kind: Kind, key: string, entry: Entry)
    requires GroupOf(MatchingLines(rows, kind), key) != [] && Bare(entry) == BareAt(MatchingLines(rows, kind))(key)
    requires entry in multiset(Breakdown(MatchingLines(rows, kind)))
    ensures entry == EntryAt(MatchingLines(rows, kind))(key)
  {
    var lines := MatchingLines(rows, kind);
    var other := EntryHasKey(lines, entry);
    EntryKeyIs(rows, kind, other);
    EntryKeyIs(rows, kind, key);
    SameTextsSameKey(entry, EntryAt(lines)(key));
  }

  lemma ListedShowsAlike(rows: seq<Row>, table: seq<Row>, kind: Kind, result: seq<Entry>, keys: seq<string>, i: nat)
    requires multiset(rows) == multiset(table) && AllPlain(rows) && FetchOrder(rows) && AcceptedAgrees(rows, kind)
    requires IsSqlBreakdown(result, keys, table, kind) && i < |keys|
    requires result[i] in multiset(Breakdown(MatchingLines(rows, kind)))
    ensures RustGroup(rows, kind, keys[i]) != [] && ShownAlike(RustGroup(rows, kind, keys[i]))
  {
    SameEntry(rows, table, kind, keys[i], result[i]);
    RefinedEntry(rows, table, kind, keys[i], result[i]);
    ListedAtItsKey(rows, kind, keys[i], result[i]);
  }

  lemma KeysOfGroups(rows: seq<Row>, table: seq<Row>, kind: Kind, keys: seq<string>, key: string)
    requires multiset(rows) == multiset(table) && AllPlain(rows)
    requires forall k :: k in keys <==> SqlGroup(table, kind, k) != []
    ensures key in keys <==> RustGroup(rows, kind, key) != []
  {
    QueriedTotal(rows, table, kind, key);
  }

  lemma FoldShowsAlike(rows: seq<Row>, table: seq<Row>, kind: Kind, result: seq<Entry>, keys: seq<string>)
    requires multiset(rows) == multiset(table) && AllPlain(rows) && FetchOrder(rows) && AcceptedAgrees(rows, kind)
    requires IsSqlBreakdown(result, keys, table, kind)
    requires multiset(result) == multiset(Breakdown(MatchingLines(rows, kind)))
    ensures FrontsShownAlike(rows, kind)
  {
    forall key | RustGroup(rows, kind, key) != [] ensures ShownAlike(RustGroup(rows, kind, key)) {
      KeysOfGroups(rows, table, kind, keys, key);
      var i :| 0 <= i < |keys| && keys[i] == key;
      assert result[i] in multiset(result);
      ListedShowsAlike(rows, table, kind, result, keys, i);
    }
  }

  lemma QueryIsFold(rows: seq<Row>, table: seq<Row>, kind: Kind, result: seq<Entry>, keys: seq<string>)
    requires multiset(rows) == multiset(table) && AllPlain(rows) && FetchOrder(rows) && AcceptedAgrees(rows, kind)
    requires FrontsShownAlike(rows, kind) && IsSqlBreakdown(result, keys, table, kind)
    ensures multiset(result) == multiset(Breakdown(MatchingLines(rows, kind)))
  {
    var lines := MatchingLines(rows, kind);
    QueryIsMap(rows, table, kind, result, keys);
    SameKeyList(rows, table, kind, result, keys);
    MapPermutes(keys, KeysOf(lines), EntryAt(lines));
    BreakdownIsMap(lines);
  }

  lemma BareOfEqual(a: seq<Entry>, b: seq<Entry>)
    requires multiset(a) == multiset(b)
    ensures multiset(Map(a, Bare)) == multiset(Map(b, Bare))
  {
    MapPermutes(a, b, Bare);
  }

  /** The whole entries are the fold's, texts and units included, exactly when moreover every
      representative's texts are stored without white space and it has a unit or no row of its group
      has; and when no two groups tie the result is then the fold's list. */
  lemma PushdownIsFold(rows: seq<Row>, table: seq<Row>, kind: Kind, result: seq<Entry>, keys: seq<string>)
    requires multiset(rows) == multiset(table) && AllPlain(rows) && FetchOrder(rows)
    requires kind == PendingKind ==> AllNonNegative(rows)
    requires IsSqlBreakdown(result, keys, table, kind) && LargestFirst(result)
    ensures multiset(result) == multiset(Breakdown(MatchingLines(rows, kind)))
       <==> AcceptedAgrees(rows, kind) && FrontsShownAlike(rows, kind)
    ensures multiset(result) == multiset(Breakdown(MatchingLines(rows, kind))) && NoTies(result) ==>
              result == Breakdown(MatchingLines(rows, kind))
  {
    var fold := Breakdown(MatchingLines(rows, kind));
    if multiset(result) == multiset(fold) {
      BareOfEqual(result, fold);
      PushdownExactly(rows, table, kind, result, keys);
      FoldShowsAlike(rows, table, kind, result, keys);
      BreakdownFacts(MatchingLines(rows, kind));
      LargestFirstIs(result);
      if NoTies(result) { SortedOnce(result, fold); }
    }
    if AcceptedAgrees(rows, kind) && FrontsShownAlike(rows, kind) { QueryIsFold(rows, table, kind, result, keys); }
  }

  /** For kind "confirmed" nothing more is asked of the rows. */
  lemma ConfirmedAgrees(rows: seq<Row>)
    ensures AcceptedAgrees(rows, ConfirmedKind)
  {
    forall row | row in multiset(rows) && StatusOfKind(RecordOf(row).status, ConfirmedKind)
      ensures AcceptedAgreesOn(row)
    {
      AcceptedAgreesByKind(row, ConfirmedKind);
    }
  }

  lemma CancelledIsReturned(row: Row)
    ensures CancelledWithTotal(row) ==> StatusOfKind(RecordOf(row).status, ReturnedKind)
    ensures HiddenAccepted(row) ==> StatusOfKind(RecordOf(row).status, PendingKind)
  {
  }

  /** For kind "returned" the rows agree exactly when they hold no submitted receipt of positive
      total with raw status Cancelled. */
  lemma ReturnedAgrees(rows: seq<Row>)
    ensures AcceptedAgrees(rows, ReturnedKind) <==> forall row | row in multiset(rows) :: !CancelledWithTotal(row)
  {
    forall row | row in multiset(rows)
      ensures CancelledWithTotal(row) ==> StatusOfKind(RecordOf(row).status, ReturnedKind)
    {
      CancelledIsReturned(row);
    }
    forall row | row in multiset(rows) && StatusOfKind(RecordOf(row).status, ReturnedKind)
      ensures AcceptedAgreesOn(row) <==> !CancelledWithTotal(row)
    {
      AcceptedAgreesByKind(row, ReturnedKind);
    }
  }

  /** For kind "pending" they agree exactly when they hold no hidden note with an accepted quantity. */
  lemma PendingAgrees(rows: seq<Row>)
    ensures AcceptedAgrees(rows, PendingKind) <==> forall row | row in multiset(rows) :: !HiddenAccepted(row)
  {
    forall row | row in multiset(rows) ensures HiddenAccepted(row) ==> StatusOfKind(RecordOf(row).status, PendingKind) {
      CancelledIsReturned(row);
    }
    forall row | row in multiset(rows) && StatusOfKind(RecordOf(row).status, PendingKind)
      ensures AcceptedAgreesOn(row) <==> !HiddenAccepted(row)
    {
      AcceptedAgreesByKind(row, PendingKind);
    }
  }

  /** The confirmed breakdown keeps keys, representatives, counts and totals on every table of plain
      rows. */
  lemma ConfirmedPushdown(rows: seq<Row>, table: seq<Row>, result: seq<Entry>, keys: seq<string>)
    requires multiset(rows) == multiset(table) && AllPlain(rows) && FetchOrder(rows)
    requires IsSqlBreakdown(result, keys, table, ConfirmedKind) && LargestFirst(result)
    ensures multiset(Map(result, Bare)) == multiset(Map(Breakdown(MatchingLines(rows, ConfirmedKind)), Bare))
  {
    ConfirmedAgrees(rows);
    PushdownKeepsBreakdown(rows, table, ConfirmedKind, result, keys);
  }

  /** The returned one does exactly on the tables without a submitted receipt of positive total
      whose raw status is Cancelled. */
  lemma ReturnedPushdown(rows: seq<Row>, table: seq<Row>, result: seq<Entry>, keys: seq<string>)
    requires multiset(rows) == multiset(table) && AllPlain(rows) && FetchOrder(rows)
    requires IsSqlBreakdown(result, keys, table, ReturnedKind) && LargestFirst(result)
    ensures multiset(Map(result, Bare)) == multiset(Map(Breakdown(MatchingLines(rows, ReturnedKind)), Bare))
       <==> forall row | row in multiset(rows) :: !CancelledWithTotal(row)
  {
    ReturnedAgrees(rows);
    PushdownExactly(rows, table, ReturnedKind, result, keys);
  }

  /** The pending one, with quantities that are not negative, exactly on the tables without a hidden
      delivery note that has an accepted quantity. */
  lemma PendingPushdown(rows: seq<Row>, table: seq<Row>, result: seq<Entry>, keys: seq<string>)
    requires multiset(rows) == multiset(table) && AllPlain(rows) && FetchOrder(rows) && AllNonNegative(rows)
    requires IsSqlBreakdown(result, keys, table, PendingKind) && LargestFirst(result)
    ensures multiset(Map(result, Bare)) == multiset(Map(Breakdown(MatchingLines(rows, PendingKind)), Bare))
       <==> forall row | row in multiset(rows) :: !HiddenAccepted(row)
  {
    PendingAgrees(rows);
    PushdownExactly(rows, table, PendingKind, result, keys);
  }

  // -------------------------------------------------------------- rows that part them

  /** A delivery note the customer confirmed and that was cancelled afterwards. */
  function CancelledNote(): DeliveryNote {
    DeliveryNote("DN-1", "C-1", "Client", 2, "2026-01-16", 8.0, 0.0, "I-1", "Item", "Kg", Some(1), Some(3))
  }

  /** Rust counts nothing of it as accepted, the query all of it. */
  lemma CancelledNoteParts()
    ensures var row := OfDelivery(CancelledNote());
            && PlainRow(row) && StatusOfKind(RecordOf(row).status, PendingKind) && HiddenAccepted(row)
            && RustLine(row).accepted == 0.0 && SqlLine(row).accepted == 8.0
  {
    TextsPlain("C-1", "Client");
  }

  lemma TextsPlain(ref: string, name: string)
    requires Tight(ref) && Tight(name)
    ensures KeyTexts(ref, name)
  {
    TightStays(ref);
    TightStays(name);
  }

  /** A receipt with given docstatus, status, total, marker and remarks. */
  function ReceiptWith(docStatus: int, status: string, total: real, marker: string, remarks: string): Receipt {
    Receipt("PR-1", "S-1", "Supplier", docStatus, status, total,
            "2026-01-16", marker, remarks, "UZS", "I-1", "Item", "Kg", 1.0)
  }

  lemma ReceiptWithIsPlain(docStatus: int, status: string, total: real, marker: string, remarks: string)
    requires Tight(status) && SentAgrees(ReceiptWith(docStatus, status, total, marker, remarks))
    ensures PlainRow(OfReceipt(ReceiptWith(docStatus, status, total, marker, remarks)))
  {
    TextsPlain("S-1", "Supplier");
    TightStays(status);
  }

  /** Announced and submitted with four, its raw status set to Cancelled without the docstatus. */
  function CancelledReceipt(): Receipt {
    ReceiptWith(1, "Cancelled", 4.0, Markers.TelegramMarker("998", "1", 40000), "")
  }

  lemma CancelledReceiptIs()
    ensures RawCancelled(CancelledReceipt()) && Tight("Cancelled")
  {
    TrimOfTight("Cancelled", IsWhite);
  }

  /** Rust counts nothing of it as accepted, the query all of it. */
  lemma CancelledReceiptParts()
    ensures var row := OfReceipt(CancelledReceipt());
            && PlainRow(row) && StatusOfKind(RecordOf(row).status, ReturnedKind) && CancelledWithTotal(row)
            && RustLine(row).accepted == 0.0 && SqlLine(row).accepted == 4.0
  {
    CancelledReceiptIs();
    PrintedMarkersAgree(CancelledReceipt(), "998", "1", 40000);
    ReceiptWithIsPlain(1, "Cancelled", 4.0, Markers.TelegramMarker("998", "1", 40000), "");
  }

  /** A confirmed delivery note of one customer. */
  function ConfirmedNote(name: string, customerName: string, uom: string): DeliveryNote {
    DeliveryNote(name, "C-1", customerName, 1, "2026-01-16", 8.0, 0.0, "I-1", "Item", uom, Some(1), Some(3))
  }

  lemma BlankBehind(name: string)
    requires name != [] && Tight(name)
    ensures Trim(name + " ") == name && !Tight(name + " ")
  {
    assert name + " " == [] + name + " ";
    TrimIsMiddle([], name, " ", IsWhite);
  }

  lemma ConfirmedNoteShown(d: DeliveryNote)
    requires d.customer != [] && Tight(d.customer) && DeliveryVisible(d) && d.customerState == Some(CUSTOMER_CONFIRMED)
    ensures var row := OfDelivery(d);
            && PlainRow(row) && SqlLine(row).key == RustLine(row).key == d.customer
            && SqlLine(row).accepted == RustLine(row).accepted == d.qty
            && SqlLine(row).name == d.customerName && RustLine(row).name == Trim(d.customerName)
  {
    TightStays(d.customer);
    TrimmedAlike(d.customer);
    DeliveryAcceptedAgrees(d);
  }

  /** A customer's name stored with a blank behind it: keys and quantities agree, the names shown differ. */
  lemma PaddedNameParts()
    ensures var row := OfDelivery(ConfirmedNote("DN-1", "Client" + " ", "Kg"));
            && PlainRow(row) && SqlLine(row).key == RustLine(row).key == "C-1"
            && SqlLine(row).accepted == RustLine(row).accepted == 8.0
            && SqlLine(row).name == "Client" + " " && RustLine(row).name == "Client"
  {
    ConfirmedNoteShown(ConfirmedNote("DN-1", "Client" + " ", "Kg"));
    BlankBehind("Client");
  }

  lemma ConfirmedNoteIs(name: string, uom: string)
    requires Tight(uom)
    ensures var row := OfDelivery(ConfirmedNote(name, "Client", uom));
            && PlainRow(row) && StatusOfKind(RecordOf(row).status, ConfirmedKind)
            && RustLine(row).key == "C-1" && RustLine(row).uom == SqlLine(row).uom == uom
  {
    TextsPlain("C-1", "Client");
    TightStays("C-1");
    TightStays(uom);
  }

  lemma NamesDescend()
    ensures NameAfter("DN-2", "DN-1")
  {
    assert "DN-1"[1..] == "N-1" && "N-1"[1..] == "-1" && "-1"[1..] == "1";
    assert "DN-2"[1..] == "N-2" && "N-2"[1..] == "-2" && "-2"[1..] == "2";
  }

  lemma PairFetched(a: Row, b: Row)
    requires Before(a, b)
    ensures FetchOrder([a, b])
  {
  }

  lemma PairPlain(a: Row, b: Row)
    requires PlainRow(a) && PlainRow(b)
    ensures AllPlain([a, b])
  {
  }

  lemma PairGroup(a: Row, b: Row, p: Row -> bool)
    requires p(a) && p(b)
    ensures Filter([a, b], p) == [a, b]
  {
    FilterAll([a, b], p);
  }

  lemma PairUnit(a: Row, b: Row)
    requires Blank(RustLine(a).uom) && !Blank(RustLine(b).uom)
    ensures UomOf(Map([a, b], RustLine)) == RustLine(b).uom
  {
    var lines := Map([a, b], RustLine);
    assert lines[1..] == [RustLine(b)];
  }

  lemma WholeGroup(rows: seq<Row>, table: seq<Row>, kind: Kind, key: string, entry: Entry)
    requires multiset(rows) == multiset(table) && AllPlain(rows) && FetchOrder(rows) && rows != []
    requires RustGroup(rows, kind, key) == rows && IsSqlEntry(entry, table, kind, key)
    ensures GroupOf(MatchingLines(rows, kind), key) != []
    ensures RustEntry(rows, kind, key).uom == UomOf(Map(rows, RustLine)) && entry.uom == SqlLine(rows[0]).uom
  {
    SqlEntryIs(rows, table, kind, key, entry);
    RustEntryIs(rows, kind, key);
  }

  /** Two rows of one group, the one fetched first without a unit: the fold shows the second one's
      unit, the query the first one's blank, over any arrangement of the two. */
  lemma UnitBehind(a: Row, b: Row, table: seq<Row>, kind: Kind, key: string, entry: Entry)
    requires PlainRow(a) && PlainRow(b) && Before(a, b) && InRustGroup(kind, key)(a) && InRustGroup(kind, key)(b)
    requires Blank(RustLine(a).uom) && !Blank(RustLine(b).uom)
    requires multiset(table) == multiset([a, b]) && IsSqlEntry(entry, table, kind, key)
    ensures GroupOf(MatchingLines([a, b], kind), key) != []
    ensures RustEntry([a, b], kind, key).uom == RustLine(b).uom && entry.uom == SqlLine(a).uom
  {
    PairFetched(a, b);
    PairPlain(a, b);
    PairGroup(a, b, InRustGroup(kind, key));
    PairUnit(a, b);
    WholeGroup([a, b], table, kind, key, entry);
  }

  function NoteWithoutUnit(): Row {
    OfDelivery(ConfirmedNote("DN-2", "Client", ""))
  }

  function NoteWithUnit(): Row {
    OfDelivery(ConfirmedNote("DN-1", "Client", "Kg"))
  }

  lemma NotesInOrder()
    ensures Before(NoteWithoutUnit(), NoteWithUnit())
  {
    NamesDescend();
  }

  lemma NoteWithoutUnitIs()
    ensures PlainRow(NoteWithoutUnit()) && InRustGroup(ConfirmedKind, "C-1")(NoteWithoutUnit())
    ensures RustLine(NoteWithoutUnit()).uom == SqlLine(NoteWithoutUnit()).uom == ""
  {
    ConfirmedNoteIs("DN-2", "");
  }

  lemma NoteWithUnitIs()
    ensures PlainRow(NoteWithUnit()) && InRustGroup(ConfirmedKind, "C-1")(NoteWithUnit())
    ensures RustLine(NoteWithUnit()).uom == "Kg"
  {
    ConfirmedNoteIs("DN-1", "Kg");
  }

  /** Two notes of one customer: the fold shows "Kg", the query no unit. */
  lemma UnitBehindParts(table: seq<Row>, entry: Entry)
    requires multiset(table) == multiset([NoteWithoutUnit(), NoteWithUnit()])
         && IsSqlEntry(entry, table, ConfirmedKind, "C-1")
    ensures GroupOf(MatchingLines([NoteWithoutUnit(), NoteWithUnit()], ConfirmedKind), "C-1") != []
    ensures RustEntry([NoteWithoutUnit(), NoteWithUnit()], ConfirmedKind, "C-1").uom == "Kg" && entry.uom == ""
  {
    NotesInOrder();
    NoteWithoutUnitIs();
    NoteWithUnitIs();
    TightBlank("");
    TightBlank("Kg");
    UnitBehind(NoteWithoutUnit(), NoteWithUnit(), table, ConfirmedKind, "C-1", entry);
  }

  // ---------------------------------------------------------------- conservation

  lemma GroupConserves(rows: seq<Row>, kind: Kind, key: string)
    requires AllNonNegative(rows) && GroupOf(MatchingLines(rows, kind), key) != []
    ensures var e := RustEntry(rows, kind, key); e.totalSent == e.totalAccepted + e.totalReturned
  {
    var group, g := GroupOf(MatchingLines(rows, kind), key), RustGroup(rows, kind, key);
    GroupIsRows(rows, kind, key);
    forall line | line in group ensures line.accepted <= line.sent {
      var j :| 0 <= j < |group| && group[j] == line;
      assert g[j] in g && g[j] in rows;
      LineAcceptsAtMostSent(g[j]);
    }
    EntryConserves(group);
  }

  lemma KeyIn(keys: seq<string>, read: string -> Entry, entry: Entry) returns (key: string)
    requires entry in multiset(Map(keys, read))
    ensures key in keys && read(key) == entry
  {
    var listed := Map(keys, read);
    assert entry in listed;
    var i :| 0 <= i < |listed| && listed[i] == entry;
    key := keys[i];
  }

  lemma EntryHasKey(lines: seq<Line>, entry: Entry) returns (key: string)
    requires entry in multiset(Breakdown(lines))
    ensures GroupOf(lines, key) != [] && entry == EntryOf(GroupOf(lines, key))
  {
    BreakdownIsMap(lines);
    key := KeyIn(KeysOf(lines), EntryAt(lines), entry);
    NewGroupIsEmpty(lines, key);
  }

  /** With quantities that are not negative, every entry's sent total is accepted plus returned. */
  lemma BreakdownConserves(rows: seq<Row>, kind: Kind, entry: Entry)
    requires AllNonNegative(rows) && entry in multiset(Breakdown(MatchingLines(rows, kind)))
    ensures entry.totalSent == entry.totalAccepted + entry.totalReturned
  {
    var key := EntryHasKey(MatchingLines(rows, kind), entry);
    GroupConserves(rows, kind, key);
  }

  lemma LineAcceptsAtMostSent(row: Row)
    requires NonNegative(row)
    ensures RustLine(row).accepted <= RustLine(row).sent
  {
    match row {
      case OfReceipt(r) => ReceiptAcceptsAtMostSent(r);
      case OfDelivery(d) => DeliveryAcceptsAtMostSent(d);
    }
  }

  /** The counts of a breakdown add up to the number of records of its kind. */
  lemma BreakdownCountsRecords(rows: seq<Row>, kind: Kind)
    ensures Counts(Breakdown(MatchingLines(rows, kind))) == |Filter(rows, RustMatches(kind))|
  {
    CountsSumToLines(MatchingLines(rows, kind));
  }

  /** The three breakdowns together count every row once. */
  lemma {:induction false} KindsPartition(rows: seq<Row>)
    ensures |Filter(rows, RustMatches(PendingKind))| + |Filter(rows, RustMatches(ConfirmedKind))|
              + |Filter(rows, RustMatches(ReturnedKind))| == |rows|
  {
    forall row | row in rows
      ensures RustMatches(PendingKind)(row) || RustMatches(ConfirmedKind)(row) || RustMatches(ReturnedKind)(row)
      ensures !(RustMatches(PendingKind)(row) && RustMatches(ConfirmedKind)(row))
      ensures !(RustMatches(PendingKind)(row) && RustMatches(ReturnedKind)(row))
      ensures !(RustMatches(ConfirmedKind)(row) && RustMatches(ReturnedKind)(row))
    {
      ExactlyOneKind(RecordOf(row).status);
    }
    FilterPartition(rows, RustMatches(PendingKind), RustMatches(ConfirmedKind), RustMatches(ReturnedKind));
  }
}
