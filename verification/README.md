# Verified model of the mobile production server

Dafny 4.11 models of the decision logic of the server, with proofs. Each module follows one part of the program:

- **Werka read models.** `WerkaRecords` classifies receipts and delivery notes; `Grouping`, `WerkaBreakdown`,
  `WerkaDetails`, `WerkaPending`, `SupplierBreakdown` and `WerkaArchive` are the folds over them, written as the loops
  they are. The SQL that replaces most of those folds is modelled beside them as functions and predicates over rows:
  CASE as `if`, WHERE as a filter, window ranking and GROUP BY as a predicate that any result of the query meets, over
  any arrangement of the table. `Markers` and `Remarks` are the texts both sides parse.
- **Production orders.** `ProductionGraph` is the breadth-first depth and the flow order; `WorkOrders` and
  `WorkOrderImport` the export to and the import from Work Orders; `BomShares` the normalisation of material shares;
  `SubmitRetry` the submit-with-retry protocol as a state machine in which replies get lost and other editors change the
  document between any two steps.
- **Formula.** `EditDistance`, `Interpolation`, `Formula` and `MaterialLayers`; `FormulaRules` states the rules of
  families, tables and microns on the texts, and `KnownOrders` works out the orders of src/core/formula_tests.rs.
- **PDF writer.** `PdfText` and `ArchivePdf` write the file. `PdfValues` and `ArchivePdfReader` are an independent
  reader following ISO 32000-1: objects (sections 7.2 and 7.3), cross-reference table and trailer (7.5.4 and 7.5.5),
  catalog and page tree (7.7.2 and 7.7.3), text (9.4) and simple fonts (9.6.2). The round trip is proved through both.
- **Item search.** `SearchText`, `ItemSearch` and `ItemRanking`.
- **Order sheet.** `OrderRows` and `OrderCells` are an order's row; in `OrderSheets` the remote sheet is a class whose
  methods are requests, each of which may be done, dropped, or done without an answer. `OrderOverlap` interleaves the
  requests of any number of calls.

`Text`, `Decimals`, `Sequences` and `Orders` hold the shared vocabulary: strings with the library operations the code
uses, decimal printing and reading, filters and sums, stable sorting.

Quantities are exact reals (the printed ones are whole ten-thousandths) and strings are compared exactly. A clock, a
server reply, a table row and the character classes beyond ASCII are parameters. `dafny verify dfyconfig.toml` checks
everything.

## Where code and documentation part

The models follow the code. README.md:145 says that SQL is used where it preserves the exact result, and
src/bin/sql_pushdown_bench.rs:110-136 expects equality. The proofs give the exact conditions:

- The breakdown query parts from the fold on submitted receipts of positive total whose raw status is Cancelled (kind
  returned), on hidden delivery notes that the customer confirmed or kept part of (kind pending), in the unit of a group
  whose representative has no unit while another row of the group has one, and in a representative's reference, name or
  unit that is stored with white space around it, which the query shows and Rust trims (`WerkaBreakdown.PushdownIsFold`,
  `WerkaBreakdown.PushdownExactly`, `WerkaBreakdown.AcceptedAgreesByKind`, `WerkaBreakdown.GroupRefines`; rows:
  `CancelledReceiptParts`, `CancelledNoteParts`, `UnitBehindParts`, `PaddedNameParts`).
- SQL's TRIM takes blanks away, Rust's trim all white space: a tab or a line break at the end of a text is kept by the
  queries (`WerkaRecords.TrimmedAlike`, `WerkaDetails.SelectExactly`, `WerkaDetails.TabKept`).
- The pending query also lists drafts whose raw status is Cancelled, leaves out visible delivery notes whose customer
  state is NULL, and shows a document's name untrimmed (`WerkaPending.PendingSelectAgrees`,
  `WerkaPending.PendingExactly`).
- The home screen keeps the first pending rows fetched, the pending list the newest ones: cut at a limit they are the
  same only when no later row is newer (`WerkaPending.HomeListsPending`).
- The summary query does not count submitted, approved receipts that did not end accepted
  (`WerkaPending.SummaryQueryIs`).
- The LIKE patterns and the Rust reader of remarks part on quoted patterns, on longer words and on other spellings
  (`Remarks.RemarksReadAlike`); the two readers of the receipt marker part on floats outside the SQL
  grammar or the column (`Markers.ReadersAgree`, `Markers.FloatsOutsideGrammar`).
- A delivery note or stock entry that was submitted while its reply got lost is reported as an error
  (`SubmitRetry.ShortReportsExactly`).
- An order number with a leading slash is imported without it, and the next export writes it so
  (`WorkOrders.OrderNumberRecovered`, `WorkOrders.ExportAgain`).
- A map imported from a Work Order without a product name takes the item code as its title, and the next export writes
  that title into the header (`WorkOrders.ExportAgainHeader`).
- The sheet sink holds no lock: overlapping calls can put one order in twice (`OrderOverlap.OverlapDuplicates`).
- The last truncation of `build_werka_home` (src/erpdb/werka_home.rs:49-101) never cuts anything: the loops already stop
  collecting at the limit.
- A search term that matches by its skeleton alone in the fourteenth place or later is dropped by the ten points a
  place costs (`ItemSearch.FourteenthValueLost`), and the skeleton's minimum of three counts bytes
  (`ItemSearch.OneLetterSkeleton`).
- Two blank codes count as the same code when a template is looked up for an order (`OrderRows.OwnTemplateFound`,
  `OrderRows.BlankCodesMatch`).

## Model

| member | source | states |
|---|---|---|
| WerkaBreakdown.PushdownKeepsBreakdown | src/erpdb/reader_sql.rs:140-254 | when the rows of the kind have the same accepted quantity on both sides, any result of the window-and-GROUP BY query over any arrangement of the table has the fold's keys, representatives, counts and three totals, whatever units the rows carry and whatever white space stands around the shown texts, larger counts first and equal ones by lowered name; and in the fold's order when the shown names carry none and no two entries share count and lowered name |
| WerkaBreakdown.PushdownExactly | src/erpdb/reader_sql.rs:140-254 | and only then: a result has the fold's entries, texts trimmed and units aside, if and only if every row of the kind agrees on its accepted quantity |
| WerkaBreakdown.PushdownIsFold | src/erpdb/reader_sql.rs:140-254 | the whole entries, texts and units included, are the fold's if and only if moreover every representative's reference, name and unit are stored without white space and it has a unit or no row of its group has; when no two entries share count and lowered name the result is then the fold's list |
| WerkaBreakdown.QueryHasResult | src/erpdb/reader_sql.rs:140-254 | the query has a result for every kind, every arrangement of the table and any stored texts, larger counts first and equal ones by lowered name: one entry for each key, from the row ranked first in its group |
| WerkaBreakdown.GroupRefines | src/erpdb/reader_sql.rs:140-254 | group by group the query gives the fold's representative (receipts first, then name descending), count and sent total; its reference and its name as shown if and only if the stored ones carry no white space, and its unit if and only if that holds of the unit and the representative has one or no row of the group has; and the fold's accepted total if and only if every row of the group agrees on accepted (only if, for pending, with quantities that are not negative) |
| WerkaBreakdown.AcceptedAgreesByKind | src/erpdb/reader_sql.rs:140-254 | row by row, the accepted quantities of query and Rust agree if and only if the row is no submitted receipt of positive total with raw status Cancelled, which only the returned kind holds, and no hidden delivery note that the customer confirmed with a quantity or kept part of, which only the pending kind holds |
| WerkaBreakdown.CancelledNoteParts | src/erpdb/reader_sql.rs:189-214 | such a row: a delivery note the customer confirmed and that was cancelled afterwards counts eight accepted in the query and none in Rust |
| WerkaBreakdown.CancelledReceiptParts | src/erpdb/reader_sql.rs:146-175 | and such a row: a submitted receipt of four with raw status Cancelled counts four accepted in the query and none in Rust |
| WerkaBreakdown.PaddedNameParts | src/erpdb/reader_sql.rs:140-254 | a note whose customer name is stored with a blank behind it agrees on key and quantities, and the query shows the name with the blank, Rust without |
| WerkaBreakdown.UnitBehind | src/erpdb/reader_sql.rs:140-254 | of any two rows of one group, the first without a unit and the second with one, the fold shows the second row's unit and the query the first row's blank, over either arrangement |
| WerkaBreakdown.UnitBehindParts | src/erpdb/reader_sql.rs:140-254 | two such notes of one customer: "Kg" in Rust, no unit in the query |
| WerkaBreakdown.ConfirmedPushdown | src/erpdb/reader_sql.rs:140-254 | the confirmed breakdown keeps keys, representatives, counts and totals on every table of rows whose key and status texts have only blanks around them and whose markers are read alike |
| WerkaBreakdown.ReturnedPushdown | src/erpdb/reader_sql.rs:140-254 | over such rows the returned one does if and only if the table holds no submitted receipt of positive total with raw status Cancelled |
| WerkaBreakdown.PendingPushdown | src/erpdb/reader_sql.rs:140-254 | the pending one, with quantities that are not negative, if and only if the table holds no hidden delivery note that the customer confirmed with a quantity or kept part of |
| WerkaBreakdown.BuildWerkaStatusBreakdown | src/erpdb/werka_status_breakdown.rs:14-39 | the two loops, the map and the sort give the breakdown of the matching lines: one entry a key, first-seen names, sums and counts; and for any two places the earlier entry has the larger count, or the same count and a lowered name not behind the other |
| WerkaBreakdown.AddIfMatches | src/erpdb/werka_status_breakdown.rs:41-67 | one record of the kind adds one to the count of its own key's entry, and its quantities to that entry's totals, and leaves every other key's entry as it is; a record of another kind changes nothing; the map stays the grouping of the records so far |
| WerkaBreakdown.BreakdownConserves | src/erpdb/werka_status_breakdown.rs:41-67 | with non-negative quantities every entry of every kind has total sent = total accepted + total returned |
| WerkaBreakdown.BreakdownCountsRecords | src/erpdb/werka_status_breakdown.rs:41-67 | the counts of a breakdown sum to the number of records of its kind |
| WerkaBreakdown.KindsPartition | src/erpdb/werka_status_breakdown.rs:69-81 | pending, confirmed and returned together count every row exactly once |
| Grouping.EntryConserves | src/erpdb/werka_status_breakdown.rs:41-67 | an entry's totals balance if and only if no line of the group accepts more than it sent |
| Grouping.CountsSumToLines | src/erpdb/werka_status_breakdown.rs:41-67 | for any lines, the counts of the grouped entries sum to the number of lines |
| WerkaDetails.BuildWerkaStatusDetails | src/erpdb/werka_status_details.rs:8-27 | the two loops, the filter and the sort give the details list, in which no label is followed by a later one |
| WerkaDetails.SelectAgrees | src/erpdb/reader_sql.rs:256-424 | on every row whose texts have only blanks around them, if anything, and whose marker is read alike, the confirmed and the returned query select exactly what Rust classifies into the kind, with the same status, quantities and texts |
| WerkaDetails.SelectExactly | src/erpdb/reader_sql.rs:256-424 | for any row Rust selects, the query gives the same record if and only if both sides read the same sent quantity, only blanks stand around each text of the record, and a receipt's raw status is Cancelled to both or to neither |
| WerkaDetails.TabKept | src/erpdb/reader_sql.rs:256-424 | a name with a tab behind it: trimmed by Rust, kept by the query's TRIM |
| WerkaDetails.PushdownKeepsDetails | src/erpdb/reader_sql.rs:256-424 | over any arrangement of a table of such rows and any party filter, every query result has the records of the Rust list, which is sorted by label, newest first |
| WerkaRecords.StatusAgrees | src/erpdb/werka_home.rs:113-144 | when only blanks stand around the raw status and the marker is read alike, the SQL CASE and the Rust classification give the same status for every receipt |
| WerkaRecords.TrimmedAlike | src/erpdb/reader_sql.rs:140-254 | the query's TRIM and Rust's trim give the same text if and only if no white space other than blanks stands at its ends |
| WerkaRecords.NotAccepted | src/erpdb/werka_home.rs:251-259 | a submitted receipt ends otherwise than accepted if and only if its raw status is Cancelled, its total is not positive, or its marker announced more than the total |
| WerkaRecords.BreakdownAcceptedAgrees | src/erpdb/werka_home.rs:146-175 | for every receipt the query's accepted quantity is the record's if and only if the receipt is not submitted, Cancelled in its raw status and of positive total |
| WerkaRecords.DeliveryAcceptedAgrees | src/erpdb/werka_home.rs:177-249 | on a delivery note the accepted quantities agree if and only if it is not hidden with customer state 3 and a quantity, nor hidden with customer state 4 and a returned quantity strictly between zero and its quantity |
| WerkaRecords.PrintedMarkersAgree | src/erpdb/werka_home.rs:113-134 | a receipt with a printed marker has the same sent quantity in Rust and in SQL: the larger of its total and the printed quantity |
| WerkaRecords.PrintedMarkerDecides | src/erpdb/werka_home.rs:251-259 | a submitted, uncancelled receipt announced with a positive quantity is rejected, partial or accepted exactly as its total is not positive, below that quantity, or at least it |
| WerkaRecords.ReceiptAcceptsAtMostSent | src/erpdb/werka_home.rs:146-175 | a receipt record never accepts more than was sent |
| WerkaRecords.DeliveryAcceptsAtMostSent | src/erpdb/werka_home.rs:177-249 | nor does a delivery record |
| WerkaRecords.ExactlyOneKind | src/erpdb/werka_status_breakdown.rs:69-81 | every status is of exactly one of the three kinds |
| WerkaPending.BuildWerkaSummary | src/erpdb/werka_summary.rs:22-63 | the loop over receipts and the loop over delivery notes give, per kind, the number of shown rows of that kind |
| WerkaPending.BuildWerkaPending | src/erpdb/werka_pending.rs:7-32 | the two loops, the stable sort and the cut give the pending list |
| WerkaPending.BuildWerkaHome | src/erpdb/werka_home.rs:49-101 | the two loops give the summary's counters and the list collected until it is full, then sorted |
| WerkaPending.HomeListsPending | src/erpdb/werka_home.rs:49-101 | the home list is the pending list if and only if there is no limit, nothing is cut, or no pending row fetched past the limit is newer than one fetched before it; both always have min(limit, pending count) records, all of them with limit 0 |
| WerkaPending.PendingSelectAgrees | src/erpdb/reader_pending_sql.rs:1-56 | on every row the pending query gives what Rust gives if and only if: a draft's remarks are read alike, or match the pattern when its raw status is Cancelled; another receipt is submitted, cancelled or Cancelled in its raw status; a visible delivery note has a customer state; and a row both select has the same sent quantity, a name without white space around it and other texts with only blanks around them |
| WerkaPending.PushdownKeepsPending | src/erpdb/reader_pending_sql.rs:1-114 | over such rows the query has the pending list's records, and cut at any limit it shows the same labels |
| WerkaPending.PendingExactly | src/erpdb/reader_pending_sql.rs:1-114 | with one row for each document (no two of a kind with the same trimmed name) it has them only over such rows |
| WerkaPending.OrdinaryPushdown | src/erpdb/reader_pending_sql.rs:1-114 | so over rows with no white space around the name and only blanks around the other texts, whose markers are read alike, and that hold no state line or one as the application spells it, are no cancelled drafts and no visible notes without a customer state |
| WerkaPending.NullStateLeftOut | src/erpdb/reader_pending_sql.rs:37-56 | a visible note whose customer state is NULL is pending to Rust and left out by the query |
| WerkaPending.CancelledDraftListed | src/erpdb/reader_pending_sql.rs:1-36 | every draft with raw status Cancelled and no mention of the state prefix is listed by the query and not by Rust |
| WerkaPending.SummaryQueryIs | src/erpdb/reader_sql.rs:87-138 | over rows whose raw status has only blanks around it and whose markers and remarks are read alike, the summary query's pending and confirmed counters are Rust's and its returned counter is short by exactly the submitted, approved receipts that are Cancelled in their raw status, have no positive total or were announced with more |
| WerkaPending.ApprovedBelowMarker | src/erpdb/reader_sql.rs:87-138 | such receipts: every approved one that was submitted below its printed marker |
| WerkaPending.ApprovedShortUncounted | src/erpdb/reader_sql.rs:87-138 | one of them, announced with two and submitted with one |
| WerkaPending.WrittenRemarksAgree | src/erpdb/reader_pending_sql.rs:1-56 | receipts whose remarks never mention the prefix, or were written by the application with no line of the note and no reason mentioning it, are read alike and, unless a cancelled draft, selected alike |
| Remarks.WriteThenRead | src/core/werka/unannounced.rs:12-38 | the state read back from written remarks is the lowered state, whatever the note and the reason hold |
| Remarks.RemarksReadAlike | src/erpdb/reader_pending_sql.rs:1-56 | on every text, with any number of state lines, LIKE and Rust see the same state if and only if the first state line spells it exactly; or says it in another spelling while the pattern is quoted elsewhere; or says something else that does not begin with the pattern, and the pattern is quoted nowhere |
| Remarks.PlainReadAlike | src/erpdb/reader_pending_sql.rs:1-56 | so on texts where at most one line mentions the prefix and that line is the prefix, one blank and a state |
| Remarks.LikeAgrees | src/erpdb/reader_pending_sql.rs:1-56 | so on written remarks, when no line of the note and not the reason mentions the prefix |
| Remarks.QuotedPatternDiffers | src/erpdb/reader_pending_sql.rs:1-56 | a line that quotes the pattern after other words matches LIKE while Rust reads no state |
| Remarks.LongerWordDiffers | src/erpdb/reader_pending_sql.rs:1-56 | a longer word that begins with the state matches LIKE while Rust reads the longer word |
| Remarks.UnspacedStateDiffers | src/erpdb/reader_pending_sql.rs:1-56 | a state right after the prefix, without a blank, is read by Rust and missed by LIKE |
| Markers.MarkerRoundTrip | src/erpnext/purchase_receipt.rs:361-367 | for any phone and timestamp text, even with colons, and any quantity of at most four decimals, the Rust parser returns the printed quantity and so does the SQL regex-and-cast |
| Markers.ReadersAgree | src/erpdb/reader_sql.rs:99-116 | on every note the two readers return the same quantity, or neither any, if and only if the text after the last colon is a number of the SQL grammar with nothing but zeros past four decimals, at most fourteen digits before the point, and the note has the prefix; or is no such number, and no float text when the note has the prefix (every row read has a note with the prefix, which the conditions of all queries ask for) |
| Markers.FloatsOutsideGrammar | src/erpdb/reader_sql.rs:99-116 | a text that Rust parses as a float is outside the SQL grammar if and only if white space surrounds it, a plus sign stands in front, it has an exponent, or digits are missing beside its point |
| Markers.PlusDiffers | src/erpdb/reader_sql.rs:99-116 | a quantity with a plus sign is read by Rust and refused by the query |
| WerkaRecords.SentAgreesExactly | src/erpdb/reader_sql.rs:99-116 | so both sides have the same sent quantity if and only if the marker is read alike or neither reading exceeds the total |
| SupplierBreakdown.BuildSupplierStatusBreakdown | src/erpdb/supplier_read.rs:96-136 | the map fold keyed by item gives the breakdown of the visible receipts of the kind, larger counts first |
| SupplierBreakdown.SupplierBreakdownConserves | src/erpdb/supplier_read.rs:96-136 | its entries balance and its counts add up to those receipts |
| SupplierBreakdown.SameItem | src/erpdb/supplier_read.rs:96-136 | two receipts count for one entry if and only if their item codes are the same, a blank code standing for the name |
| WerkaArchive.CollectArchive | src/erpdb/werka_archive.rs:66-101 | the two loops, each under its guard on the kind, and the sort give the archive records of the kind, in which no label is followed by a later one |
| WerkaArchive.AccumulateTotals | src/erpdb/werka_archive.rs:158-179 | the map holds, per unit, the sum of the metric quantities of the records of that unit, a blank unit standing for "Nos" |
| WerkaArchive.ArchiveConserves | src/erpdb/werka_archive.rs:158-193 | the totals by unit sum to the records' metric quantities, in any order of the units |
| WerkaArchive.InArchiveIs | src/erpdb/werka_archive.rs:146-156 | a row is in the received archive if and only if it is a shown receipt, accepted or partial; in the returned one if and only if it is shown as partial, rejected or cancelled; in the sent one if and only if it is a shown note |
| WerkaArchive.ReceivedAndReturned | src/erpdb/werka_archive.rs:182-194 | over records that accept something and no more than was sent, the received and the returned quantities sum to the sent ones |
| ProductionGraph.NodeDepth | src/erpnext/production_order.rs:730-757 | on every graph, with cycles, duplicate edges, several starts and undeclared ids, the search ends and returns the length of a shortest walk from a Start node, or usize::MAX exactly when there is none |
| ProductionGraph.ExpandFrontier | src/erpnext/production_order.rs:738-755 | one layer marks the frontier and queues every successor of a newly marked id |
| ProductionGraph.ApparatusNodesInFlowOrder | src/erpnext/production_order.rs:714-728 | the apparatus nodes, each once, for any two places by depth, then y, then x, then id |
| ProductionGraph.FlowOrderIsSorted | src/erpnext/production_order.rs:714-728 | the flow order lists every apparatus node once and for any two places by depth, then y, then x, then id |
| ProductionGraph.FlowOrderIgnoresListing | src/erpnext/production_order.rs:714-728 | with distinct apparatus ids the flow order depends on the graph alone, not on how nodes and edges are listed |
| WorkOrders.BuildWorkOrderPayload | src/erpnext/production_order.rs:522-559 | item, quantity and header, and one operation for each apparatus of the flow order: "Laminatsiya" if and only if the lowered title holds "laminat", "Flexo" if it does not and holds "flex" or "fleks", then "Pechat", "Paket" and else "Ishlov"; the workstation is the first of assigned and own title that is not blank; description, batch size and sequence id, counted from one |
| WorkOrders.DescriptionIs | src/erpnext/production_order.rs:782-821 | an operation description is, letter by letter, the lines for order, widths, rubber, rolls, layers and map id |
| WorkOrders.ExportFollowsFlow | src/erpnext/production_order.rs:522-559 | the operations are those of all apparatus nodes, each once, and a smaller sequence id never goes to a deeper node |
| WorkOrders.BuildChain | src/erpnext/production_order.rs:1007-1034 | the loops that push nodes and edges build the chain start, task, apparatus..., end |
| WorkOrders.ChainPlaces | src/erpnext/production_order.rs:1007-1034 | the nodes stand in one column, the k-th at 120 k |
| WorkOrders.ChainDepth | src/erpnext/production_order.rs:1007-1034 | the k-th node of a rebuilt chain has depth k |
| WorkOrders.ChainFlowOrder | src/erpnext/production_order.rs:1007-1034 | the flow order of a rebuilt map is the order of its operation rows |
| WorkOrders.HeaderReads | src/erpnext/production_order.rs:1055-1061 | order, product and map id are read back from the description lines |
| WorkOrders.WidthReads | src/erpnext/production_order.rs:782-821 | the width is read back from an operation description, whatever the layer texts hold |
| WorkOrders.SortedBack | src/erpnext/production_order.rs:990-1006 | any permutation of numbered operation rows is sorted back into place |
| WorkOrders.ExportThenImport | src/erpnext/production_order.rs:978-1046 | importing an exported document, with its rows in any order, recovers id, item, order number, title, roll count, width and the workstation chain |
| WorkOrders.ExportAgain | src/erpnext/production_order.rs:522-559 | exporting the imported map again gives the same workstations, descriptions, sequence numbers and batch sizes if and only if the order number has no leading slash, or is nothing but slashes and the template repeats it |
| WorkOrders.ExportAgainHeader | src/erpnext/production_order.rs:522-559 | it always has the same item and quantity, and the same header if and only if, besides, there was a product name or no item code that the import could put in its place |
| WorkOrderImport.ImportIs | src/erpnext/production_order.rs:978-1061 | every document, exported or not: no plan if and only if no line gives a map id or the first that does gives a blank one; else id, title and order number are those of the first lines with their keys, the rolls those of the first row with a positive batch, and the chain that of the rows with a workstation, by number and name |
| WorkOrders.OrderNumberRecovered | src/erpnext/production_order.rs:978-1046 | the order number survives export and import if and only if it does not begin with a slash |
| BomShares.ShareOut | src/erpnext/production_order.rs:648-663 | the quantities are rewritten in place to each layer's share |
| BomShares.SharesAreProper | src/erpnext/production_order.rs:648-663 | the shares are each in [0, 1] and sum to exactly 1 if and only if no micron is negative or none is positive |
| BomShares.TemplateShares | src/erpnext/production_order.rs:631-695 | a template that names a material and no negative micron has such shares |
| BomShares.ExpandLayerIs | src/erpnext/production_order.rs:666-695 | several materials with a micron for each are taken apart in order, anything else is one material with the largest micron named, or 0 |
| BomShares.LayersNamed | src/erpnext/production_order.rs:631-646 | the parts of each template layer stand under "1 qavat", "2 qavat" and "3 qavat", and there are no others |
| SubmitRetry.SubmitProductionDoc | src/erpnext/production_order.rs:353-402 | the loop, step by step, against any sequence of replies and of other editors' changes |
| SubmitRetry.LongLoopIs | src/erpnext/production_order.rs:353-402 | the whole loop read off its log in every interleaving: a read, a post unless it found the document submitted, then success, a retry, or the recheck, the retry exactly after a first post that failed with a mismatch |
| SubmitRetry.RetriesAfterMismatch | src/erpnext/production_order.rs:382-386 | after a first post that failed with a mismatch the document is read again, and posted again unless that read fails or finds it submitted |
| SubmitRetry.RetrySucceeds | src/erpnext/production_order.rs:353-402 | when that read finds a draft, nobody edits any more and both requests are answered, the result is Ok and the document is submitted |
| SubmitRetry.SubmitIsSafe | src/erpnext/production_order.rs:353-421 | in every interleaving: Ok only if the document is submitted, at most two posts, at most one takes effect, the error after the loop is never returned, and with answered reads Ok if and only if the document is submitted |
| SubmitRetry.RetryOnlyAfterMismatch | src/erpnext/production_order.rs:353-402 | a second post is sent only after the first failed with a timestamp mismatch, and after a fresh read |
| SubmitRetry.TakenIsReported | src/erpnext/production_order.rs:353-421 | a post that took effect is reported as Ok whenever the reads are answered and nobody cancels, even when its own reply was lost |
| SubmitRetry.SubmitDeliveryNote | src/erpnext/delivery_note.rs:216-246 | the shorter loop, step by step |
| SubmitRetry.ShortLoopIs | src/erpnext/delivery_note.rs:216-246 | the shorter loop read off its log in every interleaving |
| SubmitRetry.ShortRetries | src/erpnext/delivery_note.rs:216-246 | it retries alike: after a mismatch it reads again, posts again when the read is answered, and submits a draft that nobody edits any more |
| SubmitRetry.SavedBetween | src/erpnext/production_order.rs:353-402 | a draft saved once more between read and post is submitted by the second post, in all the loops |
| SubmitRetry.ShortIsSafe | src/erpnext/stock_entry.rs:49-77 | the two shorter loops never return the error after the loop, post at most twice and succeed only on their own acknowledged post |
| SubmitRetry.ShortReportsExactly | src/erpnext/delivery_note.rs:216-246 | in every interleaving the shorter loops succeed if and only if some post was acknowledged, and a post that took effect is reported if and only if its own reply arrived |
| SubmitRetry.LostReply | src/erpnext/delivery_note.rs:216-246 | with a lost reply the long loop reports success where the short ones report an error for the same submitted document |
| EditDistance.Levenshtein | src/core/formula.rs:589-605 | the one-row in-place loop computes the distance, although it looks only at the diagonal on equal characters |
| EditDistance.DistanceIsLeast | src/core/formula.rs:589-605 | the distance is the least cost over all scripts of insertions, deletions and substitutions, and some script reaches it |
| EditDistance.DistanceLipschitz | src/core/formula.rs:589-605 | one more character changes the distance by at most one, which is why the two other neighbours may be ignored |
| EditDistance.CloseOnAscii | src/core/formula.rs:585-587 | on ASCII text close holds if and only if the lengths match and at most one position differs |
| Interpolation.Interpolate | src/core/formula.rs:417-455 | the window loop returns the piecewise-linear curve, and nothing on a table with fewer than two knots |
| Interpolation.CurveThroughKnots | src/core/formula.rs:417-455 | the curve passes through every knot, the last included |
| Interpolation.CurveIsLinear | src/core/formula.rs:457-466 | between neighbouring knots, and past both ends, the curve lies on the line through the two knots of its piece |
| Interpolation.CurveIncreasing | src/core/formula.rs:417-466 | a thicker film has a strictly larger coefficient |
| Interpolation.TablesAscend | src/core/formula.rs:376-415 | the three tables of the source ascend in micron and in coefficient |
| Interpolation.RoundUpIsLeast | src/core/formula.rs:628-630 | round_up gives the least multiple of the step that is not below the value |
| Formula.CalculateSingle | src/core/formula.rs:165-220 | a result weighs the order: width in centimetres, coefficients summed, base length times coefficient times width is 6000 times the weight, waste is that percent of it, five when none is given, and the rounded length is the least multiple of 500 not below base plus waste; a missing weight or width is an error |
| Formula.RoundedLengthMonotone | src/core/formula.rs:165-220 | with the same layers the rounded length never falls with more kg or waste or less width, and both requests fail alike |
| Formula.RequestVariants | src/core/formula.rs:222-240 | the three nested loops build the variants in order |
| Formula.VariantsCoverProduct | src/core/formula.rs:222-240 | the variants are exactly the combinations of the three layers' alternatives, at least one |
| Formula.CalculateVariants | src/core/formula.rs:154-163 | the results are those of all the variants or the first error, and are never empty |
| FormulaRules.AlternativesAre | src/core/formula.rs:242-269 | the text cut at every "yoki" joins back and no piece holds it; the alternatives are, of each piece that is not blank, its slashed parts when there are two or more and not a micron for each, else the piece, and the text itself when there is no such piece |
| FormulaRules.FamilyIs | src/core/formula.rs:344-374 | the family of a material is that of the first of eight rules its letters meet, an unknown material meets none |
| FormulaRules.NormalizeDrops | src/core/formula.rs:576-583 | anything but letters, digits and dashes may stand anywhere in a name, and capitals count as small letters |
| FormulaRules.CoefficientsAdd | src/core/formula.rs:292-313 | the coefficients of films on top of each other add up, and of two errors the first stands |
| FormulaRules.MergedLayers | src/core/formula.rs:271-290 | two layers behind the first count as one with the materials and microns of both |
| FormulaRules.MicronsRead | src/core/formula.rs:468-488 | a printed list of microns is read number by number and the largest stands for it |
| FormulaRules.RubberSizeIs | src/core/formula.rs:624-626 | the least multiple of fifty not below the width, between 50 and 1300 |
| KnownOrders.WasteAndRounding | src/core/formula_tests.rs:4-35 | 12000 with the usual waste and 12500 with ten percent |
| KnownOrders.AlternativeVariants | src/core/formula_tests.rs:56-72 | "pe oq yoki mcp" gives two results, 12000 and 14000 |
| KnownOrders.DisplayOrder | src/core/formula_tests.rs:75-87 | the text "pet 12 + oppm/pe pr 20/30" alone gives 74500 |
| KnownOrders.SheetOrderLength | src/google_sheets.rs:875-887 | the order of the sheet runs 11500 |
| MaterialLayers.ScanBack | src/core/formula.rs:498-523 | the backward loop stops at the micron's start |
| MaterialLayers.RawPrinted | src/core/formula.rs:498-523 | a printed layer is split exactly between material and micron |
| MaterialLayers.MicronRun | src/core/formula.rs:498-523 | a run of digits, slashes, commas and points behind a name is one micron without its commas and points: "12,5" is read as 125 |
| MaterialLayers.PrintThenParse | src/core/formula.rs:490-523 | printing up to three normalised layers and parsing the text gives the same layers |
| MaterialLayers.ParsePrintParse | src/core/formula.rs:490-538 | on every text, what was parsed survives printing and parsing again |
| MaterialLayers.NamesRenamed | src/core/formula.rs:525-538 | metallised "bopp" is "oppm" wherever the words stand, "bopp" in front is "opp", and a name without "bopp" only loses capitals and extra blanks |
| MaterialLayers.NormalizeIdempotent | src/core/formula.rs:525-538 | normalising a material name twice is normalising it once |
| MaterialLayers.DisplayCalculates | src/core/formula.rs:126-152 | in an otherwise blank request up to three layers and the text they print to give the same results |
| MaterialLayers.HydrateTwice | src/core/formula.rs:126-152 | layers filled from a text are not filled again, by that text or any other |
| MaterialLayers.LayersGiven | src/core/formula.rs:126-152 | layers that are given stay, whatever the text says |
| PdfText.EscapePdfText | src/http/archive_pdf.rs:113-127 | the loop writes the escaped form of the trimmed text cut to 132 characters |
| PdfText.LiteralRoundTrip | src/http/archive_pdf.rs:102-127 | a reader under the backslash rules of ISO 32000-1, section 7.3.4.2, gets back exactly the shown text and stops at the writer's own closing parenthesis, whatever follows |
| PdfText.ShownIs | src/http/archive_pdf.rs:113-127 | a line shows its first 132 characters without the white space around them, tab and line breaks as blanks, anything else outside printable ASCII as a question mark |
| PdfText.BuildPdfTextStream | src/http/archive_pdf.rs:102-111 | the loop appends one literal and its operators for each line |
| PdfText.StreamRoundTrip | src/http/archive_pdf.rs:102-111 | a page's stream is read as one text in font F1 at eight points, from (36, 555) down in steps of eleven, of every line as shown, in order |
| ArchivePdf.BuildArchivePdf | src/http/archive_pdf.rs:5-58 | the objects array, the offsets array and the appended buffer give the document |
| ArchivePdf.FillObjects | src/http/archive_pdf.rs:9-36 | every slot of the objects array is filled with its object |
| ArchivePdf.WriteBody | src/http/archive_pdf.rs:38-43 | each recorded offset is the byte length of the text written before its object |
| ArchivePdf.PagesHoldAllLines | src/http/archive_pdf.rs:15-20 | the pages concatenate to all the lines in order, at most 46 each, only the last one short |
| ArchivePdf.DocumentAscii | src/http/archive_pdf.rs:38-58 | the whole file is ASCII, so offsets in characters are offsets in bytes |
| ArchivePdfReader.EntryIsTwentyBytes | src/http/archive_pdf.rs:47-50 | a table entry is twenty bytes if and only if its offset is below 10^10, and then it is read back as that offset |
| ArchivePdfReader.EveryObjectIsFound | src/http/archive_pdf.rs:38-58 | startxref leads to the table, and every entry is the position where "id 0 obj" and the object's own text begin |
| ArchivePdfReader.DocumentRoundTrip | src/http/archive_pdf.rs:5-58 | reading the file from its end mark through startxref, table, trailer and catalog down the page tree, dictionary by dictionary and key by key, gives back every page: its parent is the tree it was listed in, 842 by 595 points, its font /F1 leads through the table to a Type1 font Courier, and its text is every line as shown, in order |
| ArchivePdfReader.EveryLineFits | src/http/archive_pdf.rs:5-127 | every line of every page, at the width of Courier, lies on the page |
| PdfValues.ValueReads | src/http/archive_pdf.rs:21-36 | a parser of numbers, names, references, arrays and dictionaries under ISO 32000-1, sections 7.3 and 7.2, reads any written value back, whatever follows |
| SearchText.NormalizeForSearch | src/erpdb/werka_item_search.rs:209-230 | the loop with its flag gives the normal form |
| SearchText.NormalizeIsNormal | src/erpdb/werka_item_search.rs:209-230 | whatever the input, the result is words of lower-case Latin or other clean letters and digits with single spaces between |
| SearchText.NormalizeKeepsLetters | src/erpdb/werka_item_search.rs:209-230 | the letters and digits of the normal form are exactly those of the folded, transliterated text without apostrophes, in order |
| SearchText.NormalizeTwice | src/erpdb/werka_item_search.rs:209-278 | normalising twice is normalising once |
| SearchText.KnownText | src/erpdb/werka_item_search.rs:310-315 | "A_B%'C" is normalised to "a b c" |
| ItemSearch.StrongerImpliesWeaker | src/erpdb/werka_item_search.rs:153-207 | each relation between the texts implies the same relation between their compact forms and between their skeletons |
| ItemSearch.ScorePositive | src/erpdb/werka_item_search.rs:153-207 | for a non-empty normalised needle a value scores if and only if its compact form holds the compact needle, or the needle's skeleton is at least three bytes and its skeleton holds it |
| ItemSearch.ScoreIsHighestTier | src/erpdb/werka_item_search.rs:153-207 | the score is the highest of the ten tiers whose relation the value meets, and zero when it meets none |
| ItemSearch.WordStartsIs | src/erpdb/werka_item_search.rs:176-181 | a word of the text starts with the needle if and only if the needle, without white space in it, stands at the front or behind white space |
| ItemSearch.FormsDrop | src/erpdb/werka_item_search.rs:183-196 | a blank stands for nothing in the compact form and a vowel for nothing in the skeleton; all else stays |
| ItemSearch.OneLetterSkeleton | src/erpdb/werka_item_search.rs:193-195 | the three are bytes, not letters: a needle of one consonant and a vowel scores a value that differs in the vowel if and only if the consonant takes three bytes or more |
| ItemSearch.LatinConsonant | src/erpdb/werka_item_search.rs:193-195 | so never with a Latin consonant |
| ItemSearch.GeorgianConsonant | src/erpdb/werka_item_search.rs:193-195 | and always with the Georgian letter ban |
| ItemSearch.SearchQueryScore | src/erpdb/werka_item_search.rs:133-151 | the loop gives the best score lowered by ten for each value before it |
| ItemSearch.BestIsGreatest | src/erpdb/werka_item_search.rs:141-150 | that best is reached by some value, beaten by none, and positive if and only if some score exceeds ten times its place |
| ItemSearch.QueryPositive | src/erpdb/werka_item_search.rs:133-151 | up to thirteen values a query scores if and only if some value holds it |
| ItemSearch.QueryPositiveAnywhere | src/erpdb/werka_item_search.rs:133-151 | at any length it scores if and only if some value scores more than ten times its place |
| ItemSearch.FourteenthValueLost | src/erpdb/werka_item_search.rs:133-151 | after thirteen terms that do not match, a term found by its skeleton alone is lost |
| ItemRanking.SupplierRanking | src/erpdb/werka_item_search.rs:8-32 | the ranking holds exactly the matching items, by score, then name, then code; a blank query changes nothing |
| ItemRanking.CustomerRanking | src/erpdb/werka_item_search.rs:34-63 | the ranking holds exactly the items of the entries with a term that scores more than ten times its place |
| ItemRanking.CustomerRankingInOrder | src/erpdb/werka_item_search.rs:34-63 | and lists them by score, then name, then code |
| ItemRanking.ShortEntryKept | src/erpdb/werka_item_search.rs:34-63 | with at most thirteen terms those are the entries with a term that holds the query |
| ItemRanking.OptionRanking | src/erpdb/werka_item_search.rs:65-108 | the ranking holds exactly the options whose item or customer holds the query, by item score, customer score, item name, customer name and item code |
| ItemRanking.PagesCover | src/erpdb/werka_item_search.rs:120-131 | pages of a positive size concatenate to the list: nothing twice, nothing missing |
| OrderRows.RowCodeIsOrderNumber | src/google_sheets.rs:454-470 | the code read back from an order's row is its order number without the slash, never empty and never the header's |
| OrderRows.MissingOrderRows | src/google_sheets.rs:408-435 | the loop collects, in order, the first row of each code that is not in the sheet |
| OrderRows.MissingRowsAre | src/google_sheets.rs:408-435 | no two missing rows share a code, none is in the sheet, and every order that gets a row is in the sheet or among them |
| OrderRows.OwnTemplateFound | src/google_sheets.rs:419-425 | an order gets a template of its own, by map id or order number, if and only if one stands before every other template with the order's code, blank codes counted as equal |
| OrderRows.BlankCodesMatch | src/google_sheets.rs:419-425 | an order without a code whose own template comes second gets the first one, of another order, because neither has a code |
| OrderCells.OrderRowIs | src/google_sheets.rs:349-406 | an order gets a row if and only if its map is an order of the sheet, its weight is positive and its length can be calculated, and the sixteen cells are these |
| OrderCells.PressMarkerIs | src/google_sheets.rs:472-502 | the press marker: "F" for a product named flexo, else that of the first title that names a press, assigned titles first |
| OrderCells.KnownRow | src/google_sheets.rs:848-905 | the order given there has the code "/7775", 11500 metres and rubber 750 |
| OrderSheets.RemoteSheet.EnsureLayout | src/google_sheets.rs:208-215 | the sheet and the error after the layout requests, whatever became of each |
| OrderSheets.RemoteSheet.AppendOrder | src/google_sheets.rs:310-324 | the sheet and the reply after one append call |
| OrderSheets.RemoteSheet.SyncOrders | src/google_sheets.rs:326-338 | the sheet and the reply after one sync call |
| OrderSheets.LayoutKeepsData | src/google_sheets.rs:208-258 | wherever the layout stops, data rows and order codes are untouched: the header is written only over a header or over the inserted row |
| OrderSheets.CallKeeps | src/google_sheets.rs:310-338 | one call, whatever the fates of its requests, keeps every data row in place and keeps order codes apart |
| OrderSheets.RunKeeps | src/google_sheets.rs:310-338 | so does any run of append and sync calls one after another |
| OrderSheets.SinkRunKeeps | src/google_sheets.rs:236-245 | with the header row the sink writes in particular |
| OrderSheets.AnsweredTookEffect | src/google_sheets.rs:326-338 | a call answered with a count took effect, or had nothing to append |
| OrderSheets.AppendReadsItsOwnSheet | src/google_sheets.rs:310-324 | an append call that took effect decided on the codes of the very sheet it appended to |
| OrderSheets.SyncLeavesOrders | src/google_sheets.rs:326-338 | a sync whose append took effect, answered or not, leaves every order that gets a row in the sheet |
| OrderSheets.AppendLeavesOrder | src/google_sheets.rs:310-324 | so does an append for its own order |
| OrderSheets.SecondSyncChangesNothing | src/google_sheets.rs:326-338 | a second sync of the same orders appends nothing and leaves the sheet as it is, at any later time and whatever becomes of its requests |
| OrderOverlap.AloneIsAfter | src/google_sheets.rs:310-338 | the requests of one call, run without interruption, are the call as specified |
| OrderOverlap.OverlapKeepsData | src/google_sheets.rs:310-338 | any number of calls, append or sync, interleaved request by request in any schedule and with any fates, lose, move or overwrite no data row and no order code |
| OrderOverlap.CodesAreCounted | src/google_sheets.rs:310-338 | a code is in the sheet once more for each of the calls that put it there |
| OrderOverlap.OverlapDuplicates | src/google_sheets.rs:310-338 | in a sheet whose codes are apart the calls leave a code more than once if and only if some two of them were about to append it at one moment and both appends took effect |
| OrderOverlap.ReadTogether | src/google_sheets.rs:310-324 | a schedule on which it happens: two appends of the same order that both read the codes before either writes |

## Left out

- HTTP routing, handlers, sessions, configuration, catalog cache, push messages and the network clients: plumbing around the modelled logic.
- The SQL text itself: each query is modelled as a relation over rows; collations, NULL ordering beyond the two nullable state columns, and the planner are not.
- The condition on the marker prefix (LIKE 'TG:%'), which every receipt query has, on both sides: the modelled rows are those it lets through.
- LIMIT inside the row queries and the clamping of limits by the handlers: the limit is a parameter of the modelled lists.
- WerkaBreakdown.PushdownExactly: and PushdownIsFold, over rows whose key (the reference, or the name where the reference is blank) and raw status have only blanks around them and whose marker is read alike; beyond them the two sides already part in key, status or sent quantity, exactly as WerkaRecords.TrimmedAlike and Markers.ReadersAgree say.
- IEEE rounding, NaN and infinities: numbers are exact reals.
- Unicode case folding: letters are lowered in ASCII, and in the search by any one-to-one folding that is idempotent and usual on ASCII; folds of one letter to several are not modelled.
- Decimals.NumberRoundTrip: numbers with more than four decimals are printed by the source in full and are cut to four here.
- WorkOrders.ExportThenImport: widths of at most four decimals, one-line texts, a non-empty map id, a positive roll count and at least one named workstation, as the import itself needs them.
- MaterialLayers.PrintThenParse: materials are normalised and hold no plus sign, microns are digits and slashes; ParsePrintParse covers every text.
- Markers.MarkerRoundTrip: the SQL cast keeps fewer than eighteen digits of ten-thousandths, so the SQL half is bounded.
- Formula.Calculate: the fields of the answer that only pass through.
- ItemRanking.PagesCover: the sum of offset and limit is unbounded here, the source's machine word is not modelled.
- ArchivePdf.BuildArchivePdf: starts from the report's lines; the formatting of those lines (archive_lines, format_go_4g) is not modelled.
- SupplierBreakdown.BuildSupplierStatusBreakdown: the source's hash map leaves the order of tied entries open; here they come in key order.
- The order sheet's cell formats, its dates as the sheet reinterprets them, and the range setting: rows are kept as written.
- The clock is read once for each sync call, the source reads it once for each row.
- Credentials and tokens (Fernet, service account signing).
- The assistant's hard-coded brand rules and the customer decision comments.
