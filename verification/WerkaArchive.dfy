/** The archive's records and totals by unit (src/erpdb/werka_archive.rs). */
module WerkaArchive {
  import opened Text
  import opened Orders
  import opened Sequences
  import opened WerkaRecords
  import opened WerkaBreakdown
  import opened WerkaDetails
  import opened WerkaPending

  datatype ArchiveKind = Received | ReturnedArchive | Sent

  predicate IncludesRecord(kind: ArchiveKind, record: Record) {
    match kind
    case Received =>
      record.recordType == PurchaseReceiptRecord && (record.status == Accepted || record.status == Partial)
    case ReturnedArchive => StatusOfKind(record.status, ReturnedKind)
    case Sent => record.recordType == DeliveryNoteRecord
  }

  predicate Reads(kind: ArchiveKind, row: Row) {
    if row.OfReceipt? then kind != Sent else kind != Received
  }

  /** The rows that reach the archive: receipts for received and returned, notes for sent and returned. */
  function InArchive(kind: ArchiveKind): Row -> bool {
    (row: Row) => Reads(kind, row) && Includes(kind)(ShowRow(row))
  }

  function ArchiveRecords(rows: seq<Row>, kind: ArchiveKind): seq<Record> {
    SortBy(Map(Filter(rows, InArchive(kind)), RecordOf), LabelOrdering())
  }

  /** Shown, and kept for this archive. */
  function Includes(kind: ArchiveKind): Shown -> bool {
    (shown: Shown) => shown.status.Some? && IncludesRecord(kind, shown.record)
  }

  function Kept(all: seq<Shown>, kind: ArchiveKind): seq<Record> {
    Map(Filter(all, Includes(kind)), RecordIn)
  }

  function PartOf(all: seq<Shown>, kind: ArchiveKind, read: bool): seq<Record> {
    if read then Kept(all, kind) else []
  }

  lemma KeptNext(all: seq<Shown>, shown: Shown, kind: ArchiveKind)
    ensures Kept(all + [shown], kind) == Kept(all, kind) + if Includes(kind)(shown) then [shown.record] else []
  {
    FilterSnoc(all, shown, Includes(kind));
    MapOfConcat(Filter(all, Includes(kind)), if Includes(kind)(shown) then [shown] else [], RecordIn);
  }

  lemma KeptGrow(records: seq<Record>, part: seq<Shown>, i: nat, kind: ArchiveKind)
    requires i < |part|
    ensures records + Kept(part[..i + 1], kind)
         == records + Kept(part[..i], kind) + if Includes(kind)(part[i]) then [part[i].record] else []
  {
    assert part[..i + 1] == part[..i] + [part[i]];
    KeptNext(part[..i], part[i], kind);
    Associate(records, Kept(part[..i], kind), if Includes(kind)(part[i]) then [part[i].record] else []);
  }

  /** One of the two loops, under the guard on the archive's kind. */
  method CollectPart(records: seq<Record>, part: seq<Shown>, kind: ArchiveKind, read: bool) returns (after: seq<Record>)
    ensures after == records + PartOf(part, kind, read)
  {
    if !read { return records; }
    after := records;
    assert records + Kept(part[..0], kind) == records;
    for i := 0 to |part|
      invariant after == records + Kept(part[..i], kind)
    {
      KeptGrow(records, part, i, kind);
      if Includes(kind)(part[i]) { after := after + [part[i].record]; }
    }
    assert part[..|part|] == part;
  }

  /** What a part of the rows contributes: all it keeps when the kind reads it, and nothing else. */
  lemma PartIs(rows: seq<Row>, kind: ArchiveKind, read: bool)
    requires forall row | row in rows :: Reads(kind, row) == read
    ensures Map(Filter(rows, InArchive(kind)), RecordOf) == PartOf(Map(rows, ShowRow), kind, read)
  {
    if read {
      FilterOfMap(rows, ShowRow, Includes(kind), InArchive(kind));
      MapOfMap(Filter(rows, InArchive(kind)), ShowRow, RecordIn, RecordOf);
    } else {
      forall i | 0 <= i < |rows| ensures !InArchive(kind)(rows[i]) { assert rows[i] in rows; }
      FilterNone(rows, InArchive(kind));
    }
  }

  lemma FromNothing(records: seq<Record>)
    ensures [] + records == records
  {
  }

  lemma PartsTogether(receipts: seq<Receipt>, deliveries: seq<DeliveryNote>, kind: ArchiveKind)
    ensures Map(Filter(RowsOf(receipts, deliveries), InArchive(kind)), RecordOf)
         == [] + PartOf(Map(receipts, ShowReceipt), kind, kind != Sent)
            + PartOf(Map(deliveries, ShowDelivery), kind, kind != Received)
  {
    var first, second := Map(receipts, ReceiptRow()), Map(deliveries, DeliveryRow());
    FilterOfConcat(first, second, InArchive(kind));
    MapOfConcat(Filter(first, InArchive(kind)), Filter(second, InArchive(kind)), RecordOf);
    PartIs(first, kind, kind != Sent);
    PartIs(second, kind, kind != Received);
    ShownReceipts(receipts);
    ShownDeliveries(deliveries);
    FromNothing(PartOf(Map(receipts, ShowReceipt), kind, kind != Sent));
  }

  /** `build_werka_archive`: the two loops and the sort. */
  method CollectArchive(receipts: seq<Receipt>, deliveries: seq<DeliveryNote>, kind: ArchiveKind)
    returns (records: seq<Record>)
    ensures records == ArchiveRecords(RowsOf(receipts, deliveries), kind) && NewestLabelsFirst(records)
  {
    records := CollectPart([], Map(receipts, ShowReceipt), kind, kind != Sent);
    records := CollectPart(records, Map(deliveries, ShowDelivery), kind, kind != Received);
    PartsTogether(receipts, deliveries, kind);
    SortedByLabel(records);
    records := SortBy(records, LabelOrdering());
  }

  function Positive(q: real): real {
    if q >= 0.0 then q else 0.0
  }

  function MetricQty(kind: ArchiveKind, record: Record): real {
    match kind
    case Received => if record.acceptedQty > 0.0 then record.acceptedQty else record.sentQty
    case ReturnedArchive => Positive(record.sentQty - record.acceptedQty)
    case Sent => record.sentQty
  }

  function Unit(record: Record): string {
    if Trim(record.uom) == [] then "Nos" else Trim(record.uom)
  }

  function MetricOf(kind: ArchiveKind): Record -> real {
    record => MetricQty(kind, record)
  }

  function OfUnit(unit: string): Record -> bool {
    record => Unit(record) == unit
  }

  /** What one unit's total must be. */
  function UnitTotal(records: seq<Record>, kind: ArchiveKind, unit: string): real {
    Sum(Filter(records, OfUnit(unit)), MetricOf(kind))
  }

  /** Which rows each archive holds: the status alone decides for the returned ones, the document for
      the sent ones, both for the received ones. */
  lemma InArchiveIs(row: Row)
    ensures InArchive(Received)(row) <==> row.OfReceipt? && ShowRow(row).status in {Some(Accepted), Some(Partial)}
    ensures InArchive(ReturnedArchive)(row)
       <==> ShowRow(row).status in {Some(Partial), Some(Rejected), Some(Cancelled)}
    ensures InArchive(Sent)(row) <==> row.OfDelivery? && ShowRow(row).status.Some?
  {
    hide ShowRow;
    ShownAs(row);
    IncludedIs(ShowRow(row), row.OfReceipt?);
    StatusesOf(ShowRow(row));
  }

  /** A shown row carries its record's status, and the record tells the document. */
  lemma ShownAs(row: Row)
    ensures ShowRow(row).status.Some? ==> ShowRow(row).status.value == ShowRow(row).record.status
    ensures ShowRow(row).record.recordType == if row.OfReceipt? then PurchaseReceiptRecord else DeliveryNoteRecord
  {
    hide ReceiptStatus, DeliveryStatus, ReceiptIncluded, DeliveryVisible, RustSent, DeliveryAccepted, Trim;
  }

  lemma IncludedIs(shown: Shown, receipt: bool)
    requires shown.record.recordType == if receipt then PurchaseReceiptRecord else DeliveryNoteRecord
    ensures Includes(Received)(shown)
       <==> shown.status.Some? && receipt && shown.record.status in {Accepted, Partial}
    ensures Includes(ReturnedArchive)(shown)
       <==> shown.status.Some? && shown.record.status in {Partial, Rejected, Cancelled}
    ensures Includes(Sent)(shown) <==> shown.status.Some? && !receipt
  {
  }

  lemma StatusesOf(shown: Shown)
    requires shown.status.Some? ==> shown.status.value == shown.record.status
    ensures shown.status in {Some(Accepted), Some(Partial)}
       <==> shown.status.Some? && shown.record.status in {Accepted, Partial}
    ensures shown.status in {Some(Partial), Some(Rejected), Some(Cancelled)}
       <==> shown.status.Some? && shown.record.status in {Partial, Rejected, Cancelled}
  {
  }

  function SentQuantity(): Record -> real { (record: Record) => record.sentQty }
  function AcceptedQuantity(): Record -> real { (record: Record) => record.acceptedQty }

  /** Where something, and no more than was sent, was accepted, the received and the returned archive
      together weigh what the sent one does. */
  lemma {:induction false} ReceivedAndReturned(records: seq<Record>)
    requires forall i | 0 <= i < |records| :: 0.0 < records[i].acceptedQty <= records[i].sentQty
    ensures Sum(records, MetricOf(Received)) + Sum(records, MetricOf(ReturnedArchive)) == Sum(records, MetricOf(Sent))
    ensures Sum(records, MetricOf(Sent)) == Sum(records, SentQuantity())
    ensures Sum(records, MetricOf(Received)) == Sum(records, AcceptedQuantity())
  {
    if records != [] {
      assert forall i | 0 <= i < |records| - 1 :: records[..|records| - 1][i] == records[i];
      ReceivedAndReturned(records[..|records| - 1]);
    }
  }

  /** A record of which nothing was accepted weighs all it sent in each archive; one that accepts more
      than it sent returns nothing. */
  lemma MetricAtEnds(record: Record)
    ensures record.acceptedQty == 0.0 <= record.sentQty ==>
              forall kind :: MetricQty(kind, record) == record.sentQty
    ensures record.sentQty <= record.acceptedQty ==> MetricQty(ReturnedArchive, record) == 0.0
    ensures record.acceptedQty < 0.0 ==> MetricQty(Received, record) == record.sentQty
  {
  }

  // ------------------------------------------------------------------- the totals

  ghost predicate HasUnit(records: seq<Record>, u: string) {
    exists i | 0 <= i < |records| :: Unit(records[i]) == u
  }

  ghost predicate UnitsHold(totals: map<string, real>, records: seq<Record>) {
    forall u :: u in totals <==> HasUnit(records, u)
  }

  ghost predicate AmountsHold(totals: map<string, real>, records: seq<Record>, kind: ArchiveKind) {
    forall u | u in totals :: totals[u] == UnitTotal(records, kind, u)
  }

  ghost predicate TotalsHold(totals: map<string, real>, records: seq<Record>, kind: ArchiveKind) {
    UnitsHold(totals, records) && AmountsHold(totals, records, kind)
  }

  /** `*totals.entry(unit).or_default() += qty`. */
  function Bumped(totals: map<string, real>, unit: string, qty: real): map<string, real> {
    totals[unit := (if unit in totals then totals[unit] else 0.0) + qty]
  }

  lemma UnitTotalNext(records: seq<Record>, i: nat, kind: ArchiveKind, unit: string)
    requires i < |records|
    ensures UnitTotal(records[..i + 1], kind, unit)
         == UnitTotal(records[..i], kind, unit) + if Unit(records[i]) == unit then MetricQty(kind, records[i]) else 0.0
  {
    FilterNext(records, i, OfUnit(unit));
    if Unit(records[i]) == unit {
      SumSnoc(Filter(records[..i], OfUnit(unit)), records[i], MetricOf(kind));
    } else {
      assert Filter(records[..i], OfUnit(unit)) + [] == Filter(records[..i], OfUnit(unit));
    }
  }

  lemma UnitIn(records: seq<Record>, i: nat, u: string)
    requires i < |records|
    ensures HasUnit(records[..i + 1], u) <==> Unit(records[i]) == u || HasUnit(records[..i], u)
  {
    var before, after := records[..i], records[..i + 1];
    assert after[i] == records[i];
    assert forall j | 0 <= j < i :: before[j] == after[j];
  }

  lemma UnitsStep(totals: map<string, real>, records: seq<Record>, i: nat, qty: real)
    requires i < |records| && UnitsHold(totals, records[..i])
    ensures UnitsHold(Bumped(totals, Unit(records[i]), qty), records[..i + 1])
  {
    forall u ensures u in Bumped(totals, Unit(records[i]), qty) <==> HasUnit(records[..i + 1], u) {
      UnitIn(records, i, u);
    }
  }

  lemma AmountStep(totals: map<string, real>, records: seq<Record>, i: nat, kind: ArchiveKind)
    requires i < |records| && TotalsHold(totals, records[..i], kind)
    ensures var unit := Unit(records[i]);
            Bumped(totals, unit, MetricQty(kind, records[i]))[unit] == UnitTotal(records[..i + 1], kind, unit)
  {
    var unit := Unit(records[i]);
    UnitTotalNext(records, i, kind, unit);
    if unit !in totals { FilterNone(records[..i], OfUnit(unit)); }
  }

  lemma AmountsStep(totals: map<string, real>, records: seq<Record>, i: nat, kind: ArchiveKind)
    requires i < |records| && TotalsHold(totals, records[..i], kind)
    ensures AmountsHold(Bumped(totals, Unit(records[i]), MetricQty(kind, records[i])), records[..i + 1], kind)
  {
    AmountStep(totals, records, i, kind);
    var unit := Unit(records[i]);
    var after := Bumped(totals, unit, MetricQty(kind, records[i]));
    forall u | u in after && u != unit ensures after[u] == UnitTotal(records[..i + 1], kind, u) {
      UnitTotalNext(records, i, kind, u);
    }
  }

  /** The map that `build_archive_summary` accumulates. */
  method AccumulateTotals(records: seq<Record>, kind: ArchiveKind) returns (totals: map<string, real>)
    ensures TotalsHold(totals, records, kind)
    ensures forall i | 0 <= i < |records| ::
              (if Trim(records[i].uom) == "" then "Nos" else Trim(records[i].uom)) in totals
  {
    totals := map[];
    for i := 0 to |records|
      invariant TotalsHold(totals, records[..i], kind)
    {
      UnitsStep(totals, records, i, MetricQty(kind, records[i]));
      AmountsStep(totals, records, i, kind);
      totals := Bumped(totals, Unit(records[i]), MetricQty(kind, records[i]));
    }
    assert records[..|records|] == records;
    forall i | 0 <= i < |records| ensures Unit(records[i]) in totals {
      assert HasUnit(records, Unit(records[i]));
    }
  }

  // ---------------------------------------------------------------- conservation

  function ByUnit(records: seq<Record>, kind: ArchiveKind): string -> real {
    unit => UnitTotal(records, kind, unit)
  }

  lemma {:induction false} OneMoreRecord(units: seq<string>, records: seq<Record>, i: nat, kind: ArchiveKind)
    requires i < |records| && Distinct(units)
    ensures Sum(units, ByUnit(records[..i + 1], kind))
         == Sum(units, ByUnit(records[..i], kind))
            + if Unit(records[i]) in units then MetricQty(kind, records[i]) else 0.0
  {
    if units != [] {
      var init, last := units[..|units| - 1], units[|units| - 1];
      assert units == init + [last];
      assert last !in init;
      OneMoreRecord(init, records, i, kind);
      UnitTotalNext(records, i, kind, last);
    }
  }

  lemma {:induction false} NoRecords(units: seq<string>, kind: ArchiveKind)
    ensures Sum(units, ByUnit([], kind)) == 0.0
  {
    if units != [] { NoRecords(units[..|units| - 1], kind); }
  }

  ghost predicate Balanced(units: seq<string>, records: seq<Record>, kind: ArchiveKind) {
    Sum(units, ByUnit(records, kind)) == Sum(records, MetricOf(kind))
  }

  lemma StepBalances(units: seq<string>, records: seq<Record>, i: nat, kind: ArchiveKind)
    requires i < |records| && Distinct(units) && Unit(records[i]) in units && Balanced(units, records[..i], kind)
    ensures Balanced(units, records[..i + 1], kind)
  {
    OneMoreRecord(units, records, i, kind);
    MetricNext(records, i, kind);
  }

  lemma {:induction false} PrefixConserves(units: seq<string>, records: seq<Record>, i: nat, kind: ArchiveKind)
    requires i <= |records| && Distinct(units) && forall j | 0 <= j < |records| :: Unit(records[j]) in units
    ensures Balanced(units, records[..i], kind)
  {
    if i == 0 {
      NoRecords(units, kind);
      assert records[..0] == [];
      assert Balanced(units, [], kind);
    } else {
      PrefixConserves(units, records, i - 1, kind);
      StepBalances(units, records, i - 1, kind);
    }
  }

  lemma MetricNext(records: seq<Record>, i: nat, kind: ArchiveKind)
    requires i < |records|
    ensures Sum(records[..i + 1], MetricOf(kind)) == Sum(records[..i], MetricOf(kind)) + MetricQty(kind, records[i])
  {
    assert records[..i + 1] == records[..i] + [records[i]];
    SumSnoc(records[..i], records[i], MetricOf(kind));
  }

  /** The totals by unit, over the map's units in any order, add up to the records' quantities. */
  lemma ArchiveConserves(totals: map<string, real>, records: seq<Record>, kind: ArchiveKind, units: seq<string>)
    requires TotalsHold(totals, records, kind)
    requires Distinct(units) && forall u :: u in units <==> u in totals
    ensures Sum(units, u => if u in totals then totals[u] else 0.0) == Sum(records, MetricOf(kind))
  {
    PrefixConserves(units, records, |records|, kind);
    assert records[..|records|] == records;
    SumAgrees(units, u => if u in totals then totals[u] else 0.0, ByUnit(records, kind));
  }
}
