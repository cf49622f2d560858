/** Receipts and delivery notes as werka sees them: the Rust classification
    (src/erpdb/werka_home.rs) and the CASE expressions of the SQL
    (src/erpdb/reader_sql.rs, src/erpdb/reader_pending_sql.rs). */
module WerkaRecords {
  import opened Text
  import opened Markers
  import opened Remarks

  datatype Status = Pending | Draft | Accepted | Partial | Rejected | Cancelled

  datatype Receipt = Receipt(
    name: string, supplier: string, supplierName: string, docStatus: int, status: string, totalQty: real,
    postingDate: string, deliveryNote: string, remarks: string, currency: string,
    itemCode: string, itemName: string, uom: string, amount: real)

  /** The two custom state columns may be NULL in the table; the row queries read NULL as 0. */
  datatype DeliveryNote = DeliveryNote(
    name: string, customer: string, customerName: string, docStatus: int, modified: string,
    qty: real, returnedQty: real, itemCode: string, itemName: string, uom: string,
    flowState: Option<int>, customerState: Option<int>)

  datatype RecordType = PurchaseReceiptRecord | DeliveryNoteRecord

  datatype Record = Record(
    id: string, recordType: RecordType, supplierRef: string, supplierName: string,
    itemCode: string, itemName: string, uom: string,
    sentQty: real, acceptedQty: real, amount: real, currency: string, status: Status, createdLabel: string)

  const FLOW_SUBMITTED := 1
  const CUSTOMER_REJECTED := 2
  const CUSTOMER_CONFIRMED := 3
  const CUSTOMER_PARTIAL := 4

  function Max(a: real, b: real): real {
    if a >= b then a else b
  }

  function OrZero(v: Option<int>): int {
    if v.Some? then v.value else 0
  }

  // ------------------------------------------------------------- the Rust side

  function RustSent(r: Receipt): real {
    var marker := RustMarkerQty(r.deliveryNote);
    if marker.Some? && marker.value > r.totalQty then marker.value else r.totalQty
  }

  function StatusFromQuantities(sent: real, accepted: real): Status {
    if accepted <= 0.0 then Rejected
    else if sent > 0.0 && accepted < sent then Partial
    else Accepted
  }

  predicate SameAsciiText(a: string, b: string) {
    Lower(a) == Lower(b)
  }

  function ReceiptStatus(r: Receipt): Status {
    if r.docStatus == 2 || SameAsciiText(Trim(r.status), "Cancelled") then Cancelled
    else if r.docStatus == 1 then StatusFromQuantities(RustSent(r), r.totalQty)
    else if SameAsciiText(Trim(r.status), "Draft") then Draft
    else Pending
  }

  /** The second half of `classify_werka_receipt_fields`: is the receipt shown? */
  predicate ReceiptIncluded(r: Receipt) {
    var state := ExtractState(r.remarks);
    !(r.docStatus == 0 && state == "pending") && !(ReceiptStatus(r) == Accepted && state == "approved")
  }

  function ReceiptToRecord(r: Receipt): Record {
    var status := ReceiptStatus(r);
    Record(Trim(r.name), PurchaseReceiptRecord, Trim(r.supplier), Trim(r.supplierName),
           Trim(r.itemCode), Trim(r.itemName), Trim(r.uom),
           RustSent(r), if status == Accepted || status == Partial then r.totalQty else 0.0,
           r.amount, Trim(r.currency), status, Trim(r.postingDate))
  }

  predicate DeliveryVisible(d: DeliveryNote) {
    d.docStatus == 1 && OrZero(d.flowState) == FLOW_SUBMITTED
  }

  function DeliveryStatus(d: DeliveryNote): Status {
    if d.docStatus != 1 then Draft
    else if OrZero(d.flowState) != FLOW_SUBMITTED then Pending
    else if OrZero(d.customerState) == CUSTOMER_REJECTED then Rejected
    else if OrZero(d.customerState) == CUSTOMER_CONFIRMED then Accepted
    else if OrZero(d.customerState) == CUSTOMER_PARTIAL then Partial
    else Pending
  }

  /** `delivery_note_decision_quantities`: accepted and returned. */
  function DecisionQuantities(d: DeliveryNote, status: Status): (real, real) {
    match status
    case Accepted => (d.qty, 0.0)
    case Partial =>
      var returned := if d.returnedQty <= 0.0 then Max(d.qty, 0.0) else d.returnedQty;
      (Max(d.qty - returned, 0.0), returned)
    case Rejected => (0.0, d.qty)
    case Cancelled => (0.0, d.qty)
    case Pending => (0.0, 0.0)
    case Draft => (0.0, 0.0)
  }

  function DeliveryAccepted(d: DeliveryNote): real {
    var status := DeliveryStatus(d);
    var quantities := DecisionQuantities(d, status);
    var first := if status == Accepted && quantities.0 <= 0.0 then d.qty else quantities.0;
    if status == Partial && first <= 0.0 && quantities.1 > 0.0 then Max(d.qty - quantities.1, 0.0) else first
  }

  function DeliveryToRecord(d: DeliveryNote): Record {
    Record(Trim(d.name), DeliveryNoteRecord, Trim(d.customer), Trim(d.customerName),
           Trim(d.itemCode), Trim(d.itemName), Trim(d.uom),
           d.qty, DeliveryAccepted(d), 0.0, "", DeliveryStatus(d), Trim(d.modified))
  }

  datatype Kind = PendingKind | ConfirmedKind | ReturnedKind | OtherKind

  /** `kind.trim()` as the match arms read it. */
  function ReadKind(kind: string): Kind {
    var k := Trim(kind);
    if k == "pending" then PendingKind
    else if k == "confirmed" then ConfirmedKind
    else if k == "returned" then ReturnedKind
    else OtherKind
  }

  /** `matches_werka_breakdown`, and the status filter of the breakdown SQL. */
  predicate StatusOfKind(status: Status, kind: Kind) {
    match kind
    case PendingKind => status == Pending || status == Draft
    case ConfirmedKind => status == Accepted
    case ReturnedKind => status == Partial || status == Rejected || status == Cancelled
    case OtherKind => false
  }

  /** The kind's text, trimmed, and the statuses it stands for. */
  lemma TextOfKind(kind: string, status: Status)
    ensures StatusOfKind(status, ReadKind(kind))
       <==> || (Trim(kind) == "pending" && status in {Pending, Draft})
            || (Trim(kind) == "confirmed" && status == Accepted)
            || (Trim(kind) == "returned" && status in {Partial, Rejected, Cancelled})
  {
    KindTextsApart();
  }

  lemma KindTextsApart()
    ensures "pending"[0] == 'p' && "confirmed"[0] == 'c' && "returned"[0] == 'r'
  {
  }

  /** When a receipt has which status: the raw status decides before the quantities do. */
  lemma ReceiptStatusIs(r: Receipt)
    ensures var raw := Lower(Trim(r.status));
            var cancelled := r.docStatus == 2 || raw == "cancelled";
            && (ReceiptStatus(r) == Cancelled <==> cancelled)
            && (ReceiptStatus(r) == Draft <==> !cancelled && r.docStatus != 1 && raw == "draft")
            && (ReceiptStatus(r) == Pending <==> !cancelled && r.docStatus != 1 && raw != "draft")
            && (ReceiptStatus(r) == Rejected <==> !cancelled && r.docStatus == 1 && r.totalQty <= 0.0)
            && (ReceiptStatus(r) == Partial <==> !cancelled && r.docStatus == 1 && 0.0 < r.totalQty < RustSent(r))
  {
    LoweredStates();
  }

  lemma LoweredStates()
    ensures Lower("Cancelled") == "cancelled" && Lower("Draft") == "draft"
  {
  }

  /** When a note is shown, and what the customer's answer makes of it. */
  lemma DeliveryStatusIs(d: DeliveryNote)
    ensures DeliveryVisible(d) <==> d.docStatus == 1 && d.flowState == Some(1)
    ensures DeliveryStatus(d) == Draft <==> d.docStatus != 1
    ensures DeliveryStatus(d) == Rejected <==> DeliveryVisible(d) && d.customerState == Some(2)
    ensures DeliveryStatus(d) == Accepted <==> DeliveryVisible(d) && d.customerState == Some(3)
    ensures DeliveryStatus(d) == Partial <==> DeliveryVisible(d) && d.customerState == Some(4)
    ensures DeliveryStatus(d) != Cancelled
  {
  }

  /** Every record is of exactly one of the three kinds. */
  lemma ExactlyOneKind(status: Status)
    ensures exists kind :: kind != OtherKind && StatusOfKind(status, kind)
    ensures forall k, l | StatusOfKind(status, k) && StatusOfKind(status, l) :: k == l
  {
    var kind :=
      if status == Pending || status == Draft then PendingKind
      else if status == Accepted then ConfirmedKind else ReturnedKind;
    assert StatusOfKind(status, kind);
  }

  // -------------------------------------------------------------- the SQL side

  /** TRIM removes spaces only. */
  function SqlTrim(s: string): string {
    TrimWith(s, c => c == ' ')
  }

  predicate SqlStatusIs(status: string, wanted: string) {
    Lower(SqlTrim(status)) == wanted
  }

  function SqlSent(r: Receipt): real {
    var marker := SqlMarkerQty(r.deliveryNote);
    Max(r.totalQty, if marker.Some? then marker.value else r.totalQty)
  }

  function SqlReceiptStatus(r: Receipt): Status {
    if r.docStatus == 2 || SqlStatusIs(r.status, "cancelled") then Cancelled
    else if r.docStatus == 1 then
      if r.totalQty <= 0.0 then Rejected
      else if SqlSent(r) > 0.0 && r.totalQty < SqlSent(r) then Partial
      else Accepted
    else if SqlStatusIs(r.status, "draft") then Draft
    else Pending
  }

  /** The accepted quantity as the breakdown query computes it: it does not look at the status. */
  function SqlBreakdownAccepted(r: Receipt): real {
    if r.docStatus == 1 && r.totalQty > 0.0 then r.totalQty else 0.0
  }

  function SqlDeliveryStatus(d: DeliveryNote): Status {
    if d.docStatus != 1 then Draft
    else if OrZero(d.flowState) != 1 then Pending
    else if OrZero(d.customerState) == 2 then Rejected
    else if OrZero(d.customerState) == 3 then Accepted
    else if OrZero(d.customerState) == 4 then Partial
    else Pending
  }

  function SqlDeliveryAccepted(d: DeliveryNote): real {
    if OrZero(d.customerState) == 3 then d.qty
    else if OrZero(d.customerState) == 4 then
      Max(d.qty - (if d.returnedQty <= 0.0 then d.qty else d.returnedQty), 0.0)
    else 0.0
  }

  // ------------------------------------------------------- where the sides agree

  /** No white space but blanks stands at a text's ends. */
  predicate BlankEnds(s: string) {
    Tight(SqlTrim(s))
  }

  /** Both sides trim a text alike exactly when only blanks surround it. */
  lemma TrimmedAlike(s: string)
    ensures BlankEnds(s) <==> Trim(s) == SqlTrim(s)
  {
    TrimTwice(s);
    var before, after := TrimCuts(s, c => c == ' ');
    if BlankEnds(s) { TrimIsMiddle(before, SqlTrim(s), after, IsWhite); }
  }

  /** A text without white space at its ends is left as it is. */
  lemma TightStays(s: string)
    ensures Trim(s) == s <==> Tight(s)
    ensures Tight(s) ==> SqlTrim(s) == s && BlankEnds(s)
  {
    TrimTwice(s);
    if Tight(s) {
      TrimOfTight(s, IsWhite);
      TrimOfTight(s, c => c == ' ');
    }
  }

  /** Both sides read the same sent quantity from the receipt and its marker. */
  predicate SentAgrees(r: Receipt) {
    RustSent(r) == SqlSent(r)
  }

  /** The marker's quantity would replace the total. */
  predicate Raises(marker: Option<real>, total: real) {
    marker.Some? && marker.value > total
  }

  /** They do exactly when the marker is read alike, or neither reading exceeds the total. */
  lemma SentAgreesExactly(r: Receipt)
    ensures SentAgrees(r)
       <==> ReadAlike(r.deliveryNote)
            || (!Raises(RustMarkerQty(r.deliveryNote), r.totalQty) && !Raises(SqlMarkerQty(r.deliveryNote), r.totalQty))
  {
    ReadersAgree(r.deliveryNote);
  }

  predicate RawCancelled(r: Receipt) {
    SameAsciiText(Trim(r.status), "Cancelled")
  }

  lemma CancelledText(s: string)
    requires BlankEnds(s)
    ensures SameAsciiText(Trim(s), "Cancelled") <==> SqlStatusIs(s, "cancelled")
  {
    TrimmedAlike(s);
    assert Lower("Cancelled") == "cancelled";
  }

  lemma DraftText(s: string)
    requires BlankEnds(s)
    ensures SameAsciiText(Trim(s), "Draft") <==> SqlStatusIs(s, "draft")
  {
    TrimmedAlike(s);
    assert Lower("Draft") == "draft";
  }

  lemma StatusAgrees(r: Receipt)
    requires BlankEnds(r.status) && SentAgrees(r)
    ensures ReceiptStatus(r) == SqlReceiptStatus(r)
  {
    CancelledText(r.status);
    DraftText(r.status);
  }

  /** The breakdown query's accepted quantity is the record's on every receipt but a submitted one
      with raw status Cancelled and a positive total. */
  lemma BreakdownAcceptedAgrees(r: Receipt)
    ensures ReceiptToRecord(r).acceptedQty == SqlBreakdownAccepted(r)
       <==> !(r.docStatus == 1 && RawCancelled(r) && r.totalQty > 0.0)
  {
  }

  /** A submitted receipt ends otherwise than accepted when its raw status is Cancelled, its total is
      not positive, or its marker announced more. */
  lemma NotAccepted(r: Receipt)
    requires r.docStatus == 1
    ensures ReceiptStatus(r) != Accepted
       <==> RawCancelled(r) || r.totalQty <= 0.0 || Raises(RustMarkerQty(r.deliveryNote), r.totalQty)
  {
  }

  lemma DeliveryStatusAgrees(d: DeliveryNote)
    ensures DeliveryStatus(d) == SqlDeliveryStatus(d)
  {
  }

  /** A note that is not shown, although the customer confirmed a quantity or kept part of one. */
  predicate HiddenWithQuantity(d: DeliveryNote) {
    && !DeliveryVisible(d)
    && (|| (d.customerState == Some(CUSTOMER_CONFIRMED) && d.qty != 0.0)
        || (d.customerState == Some(CUSTOMER_PARTIAL) && 0.0 < d.returnedQty < d.qty))
  }

  /** On delivery notes the accepted quantities agree exactly on all others. */
  lemma DeliveryAcceptedAgrees(d: DeliveryNote)
    ensures DeliveryAccepted(d) == SqlDeliveryAccepted(d) <==> !HiddenWithQuantity(d)
  {
  }

  /** A receipt whose marker the application printed is read alike on both sides. */
  lemma PrintedMarkersAgree(r: Receipt, phone: string, timestamp: string, q: int)
    requires r.deliveryNote == TelegramMarker(phone, timestamp, q)
    requires -1_000_000_000_000_000_000 < q < 1_000_000_000_000_000_000
    ensures SentAgrees(r)
    ensures RustSent(r) == Max(r.totalQty, q as real / 10000.0)
  {
    MarkerRoundTrip(phone, timestamp, q);
  }

  /** A submitted, uncancelled receipt announced with a positive quantity is rejected, partial or
      accepted exactly as its total is not positive, below the quantity, or at least it. */
  lemma PrintedMarkerDecides(r: Receipt, phone: string, timestamp: string, q: int)
    requires r.deliveryNote == TelegramMarker(phone, timestamp, q) && q > 0
    requires r.docStatus == 1 && !RawCancelled(r)
    ensures ReceiptStatus(r) == Rejected <==> r.totalQty <= 0.0
    ensures ReceiptStatus(r) == Partial <==> 0.0 < r.totalQty < q as real / 10000.0
    ensures ReceiptStatus(r) == Accepted <==> r.totalQty >= q as real / 10000.0
  {
    MarkerRoundTrip(phone, timestamp, q);
    assert q as real / 10000.0 > 0.0;
  }

  /** With quantities that are not negative, no record accepts more than was sent. */
  lemma ReceiptAcceptsAtMostSent(r: Receipt)
    requires r.totalQty >= 0.0
    ensures 0.0 <= ReceiptToRecord(r).acceptedQty <= ReceiptToRecord(r).sentQty
  {
  }

  lemma DeliveryAcceptsAtMostSent(d: DeliveryNote)
    requires d.qty >= 0.0
    ensures 0.0 <= DeliveryToRecord(d).acceptedQty <= DeliveryToRecord(d).sentQty
  {
  }
}
