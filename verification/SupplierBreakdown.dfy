/** A supplier's breakdown by item: the same fold under another key
    (src/erpdb/supplier_read.rs). */
module SupplierBreakdown {
  import opened Text
  import opened Sequences
  import opened Grouping
  import opened Remarks
  import opened WerkaRecords

  /** `kind.trim()` as `record_matches_supplier_kind` reads it. */
  function ReadSupplierKind(kind: string): Kind {
    var k := Trim(kind);
    if k == "pending" then PendingKind
    else if k == "submitted" then ConfirmedKind
    else if k == "returned" then ReturnedKind
    else OtherKind
  }

  function ItemLine(record: Record): Line {
    var code, name := Trim(record.itemCode), Trim(record.itemName);
    Line(if code == [] then name else code, record.itemCode, record.itemName, record.uom,
         record.sentQty, record.acceptedQty)
  }

  /** Two receipts count for one entry exactly when their codes are the same, a blank code standing
      for the item's name. */
  lemma SameItem(r: Receipt, s: Receipt)
    ensures ReceiptLine()(r).key == ReceiptLine()(s).key
       <==> (if Trim(r.itemCode) == "" then Trim(r.itemName) else Trim(r.itemCode))
            == if Trim(s.itemCode) == "" then Trim(s.itemName) else Trim(s.itemCode)
    ensures ReceiptLine()(r).ref == Trim(r.itemCode) && ReceiptLine()(r).name == Trim(r.itemName)
    ensures ReceiptLine()(r).uom == Trim(r.uom)
    ensures ReceiptLine()(r).sent == ReceiptToRecord(r).sentQty
    ensures ReceiptLine()(r).accepted == ReceiptToRecord(r).acceptedQty
  {
    TrimmedStays(r.itemCode);
    TrimmedStays(r.itemName);
    TrimmedStays(s.itemCode);
    TrimmedStays(s.itemName);
  }

  lemma TrimmedStays(s: string)
    ensures Trim(Trim(s)) == Trim(s)
  {
    TrimTwice(s);
  }

  /** `visible_supplier_records` that are of the kind. */
  function Counted(kind: Kind): Receipt -> bool {
    r => ReceiptIncluded(r) && StatusOfKind(ReceiptToRecord(r).status, kind)
  }

  /** Which receipts count for a kind's text: the shown ones, no draft that waits for approval and nothing
      accepted that was approved, of the statuses the text stands for. */
  lemma CountedIs(kind: string, r: Receipt)
    ensures Counted(ReadSupplierKind(kind))(r)
       <==> && !(r.docStatus == 0 && ExtractState(r.remarks) == "pending")
            && !(ReceiptStatus(r) == Accepted && ExtractState(r.remarks) == "approved")
            && (|| (Trim(kind) == "pending" && ReceiptStatus(r) in {Pending, Draft})
                || (Trim(kind) == "submitted" && ReceiptStatus(r) == Accepted)
                || (Trim(kind) == "returned" && ReceiptStatus(r) in {Partial, Rejected, Cancelled}))
  {
    hide ReceiptStatus, ExtractState, Trim, RustSent;
    KindTextsDiffer();
  }

  lemma KindTextsDiffer()
    ensures "pending"[0] == 'p' && "submitted"[0] == 's' && "returned"[0] == 'r'
  {
  }

  function ReceiptLine(): Receipt -> Line {
    r => ItemLine(ReceiptToRecord(r))
  }

  function ItemLines(receipts: seq<Receipt>, kind: Kind): seq<Line> {
    Map(Filter(receipts, Counted(kind)), ReceiptLine())
  }

  lemma ItemLinesNext(receipts: seq<Receipt>, i: nat, kind: Kind)
    requires i < |receipts|
    ensures ItemLines(receipts[..i + 1], kind)
         == ItemLines(receipts[..i], kind) + if Counted(kind)(receipts[i]) then [ReceiptLine()(receipts[i])] else []
  {
    FilterNext(receipts, i, Counted(kind));
  }

  /** `build_supplier_status_breakdown`; the source's hash map leaves the order of ties open, here
      they come in key order. */
  method BuildSupplierStatusBreakdown(receipts: seq<Receipt>, kind: string) returns (result: seq<Entry>)
    ensures result == Breakdown(ItemLines(receipts, ReadSupplierKind(kind))) && LargestFirst(result)
  {
    var k := ReadSupplierKind(kind);
    var grouped := Grouped([], map[]);
    assert ItemLines(receipts[..0], k) == [];
    for i := 0 to |receipts|
      invariant Holds(grouped, ItemLines(receipts[..i], k))
    {
      ItemLinesNext(receipts, i, k);
      if Counted(k)(receipts[i]) {
        grouped := AddLine(grouped, ReceiptLine()(receipts[i]), ItemLines(receipts[..i], k));
      } else {
        assert ItemLines(receipts[..i], k) + [] == ItemLines(receipts[..i], k);
      }
    }
    assert receipts[..|receipts|] == receipts;
    result := ListEntries(grouped, ItemLines(receipts, k));
  }

  lemma ItemLineAccepts(receipts: seq<Receipt>, kind: Kind, line: Line)
    requires (forall r | r in receipts :: r.totalQty >= 0.0) && line in ItemLines(receipts, kind)
    ensures line.accepted <= line.sent
  {
    var counted := Filter(receipts, Counted(kind));
    var j :| 0 <= j < |counted| && Map(counted, ReceiptLine())[j] == line;
    assert counted[j] in receipts;
    ReceiptAcceptsAtMostSent(counted[j]);
  }

  /** With totals that are not negative every entry's sent total is accepted plus returned, and the
      counts add up to the visible receipts of the kind. */
  lemma SupplierBreakdownConserves(receipts: seq<Receipt>, kind: Kind, key: string)
    requires forall r | r in receipts :: r.totalQty >= 0.0
    ensures var lines := ItemLines(receipts, kind);
            && Counts(Breakdown(lines)) == |Filter(receipts, Counted(kind))|
            && (GroupOf(lines, key) != [] ==>
                  var e := EntryOf(GroupOf(lines, key)); e.totalSent == e.totalAccepted + e.totalReturned)
  {
    var lines := ItemLines(receipts, kind);
    CountsSumToLines(lines);
    if GroupOf(lines, key) != [] {
      forall line | line in GroupOf(lines, key) ensures line.accepted <= line.sent {
        ItemLineAccepts(receipts, kind, line);
      }
      EntryConserves(GroupOf(lines, key));
    }
  }
}
