/** What `work_order_document_to_map` (src/erpnext/production_order.rs:978-1046) makes of any document at
    all, stated on the document's own lines and rows. */
module WorkOrderImport {
  import opened Text
  import opened Decimals
  import opened Orders
  import opened ProductionGraph
  import opened WorkOrders
  import S = Sequences

  // ---------------------------------------------------------------- what the lines say

  /** The first line that begins with the key says the rest of it, trimmed; no such line says nothing. */
  ghost predicate Says(lines: seq<string>, key: string, value: Option<string>) {
    || (value == None && forall i | 0 <= i < |lines| :: !(key <= Trim(lines[i])))
    || (exists i | 0 <= i < |lines| ::
          && key <= Trim(lines[i]) && value == Some(Trim(Trim(lines[i])[|key|..]))
          && forall j | 0 <= j < i :: !(key <= Trim(lines[j])))
  }

  lemma {:induction false} FindValueSays(lines: seq<string>, key: string)
    ensures Says(lines, key, FindValue(lines, key))
  {
    hide Trim;
    if lines != [] && !(key <= Trim(lines[0])) {
      var rest, value := lines[1..], FindValue(lines, key);
      FindValueSays(rest, key);
      if value == None {
        forall i | 0 <= i < |lines| ensures !(key <= Trim(lines[i])) { assert i == 0 || lines[i] == rest[i - 1]; }
      } else {
        var i :| && 0 <= i < |rest| && key <= Trim(rest[i]) && value == Some(Trim(Trim(rest[i])[|key|..]))
                 && forall j | 0 <= j < i :: !(key <= Trim(rest[j]));
        forall j | 0 <= j < i + 1 ensures !(key <= Trim(lines[j])) { assert j == 0 || lines[j] == rest[j - 1]; }
        assert lines[i + 1] == rest[i];
      }
    }
  }

  lemma {:induction false} SaidOnce(lines: seq<string>, key: string, a: Option<string>, b: Option<string>)
    requires Says(lines, key, a) && Says(lines, key, b)
    ensures a == b
  {
    hide Trim;
  }

  lemma SaidIsTrimmed(lines: seq<string>, key: string)
    ensures FindValue(lines, key).Some? ==> Trim(FindValue(lines, key).value) == FindValue(lines, key).value
  {
    FindValueSays(lines, key);
    forall i | 0 <= i < |lines| && key <= Trim(lines[i])
      ensures Trim(Trim(Trim(lines[i])[|key|..])) == Trim(Trim(lines[i])[|key|..])
    {
      TrimTwice(Trim(lines[i])[|key|..]);
    }
  }

  // -------------------------------------------------------------------- rows and rolls

  predicate HasWorkstation(row: OperationRow) {
    Trim(row.workstation) != ""
  }

  /** The rows with a workstation, by sequence number, and equal numbers by workstation. */
  ghost predicate Arranged(rows: seq<OperationRow>, operations: seq<OperationRow>) {
    && multiset(rows) == multiset(S.Filter(operations, HasWorkstation))
    && forall i, j | 0 <= i < j < |rows| ::
         || rows[i].sequenceId < rows[j].sequenceId
         || (rows[i].sequenceId == rows[j].sequenceId && Ascends(rows[i].workstation, rows[j].workstation))
  }

  lemma {:induction false} WithWorkstationIs(rows: seq<OperationRow>)
    ensures WithWorkstation(rows) == S.Filter(rows, HasWorkstation)
  {
    hide Trim;
    if rows != [] {
      WithWorkstationIs(rows[1..]);
      S.FilterOne(rows[0], rows[1..], HasWorkstation);
      assert rows == [rows[0]] + rows[1..];
    }
  }

  lemma RowsArranged(document: Document)
    ensures Arranged(ImportedRows(document), document.operations)
  {
    var named, rows := WithWorkstation(document.operations), ImportedRows(document);
    WithWorkstationIs(document.operations);
    SortByPermutes(named, SequenceOrdering());
    SequencePreorder();
    SortBySorted(named, SequenceOrdering());
    forall i, j | 0 <= i < j < |rows|
      ensures || rows[i].sequenceId < rows[j].sequenceId
              || (rows[i].sequenceId == rows[j].sequenceId && Ascends(rows[i].workstation, rows[j].workstation))
    {
      assert SequenceOrdering()(rows[i], rows[j]);
      StrLeIs(rows[i].workstation, rows[j].workstation);
    }
  }

  /** The batch size of the first row that has a positive one. */
  ghost predicate FirstPositive(rows: seq<OperationRow>, count: Option<real>) {
    || (count == None && forall i | 0 <= i < |rows| :: rows[i].batchSize <= 0.0)
    || (exists i | 0 <= i < |rows| ::
          && rows[i].batchSize > 0.0 && count == Some(rows[i].batchSize)
          && forall j | 0 <= j < i :: rows[j].batchSize <= 0.0)
  }

  lemma {:induction false} FirstBatchIs(rows: seq<OperationRow>)
    ensures FirstPositive(rows, FirstBatch(rows))
  {
    if rows != [] && rows[0].batchSize <= 0.0 {
      var rest, count := rows[1..], FirstBatch(rows);
      FirstBatchIs(rest);
      if count == None {
        forall i | 0 <= i < |rows| ensures rows[i].batchSize <= 0.0 { assert i == 0 || rows[i] == rest[i - 1]; }
      } else {
        var i :| && 0 <= i < |rest| && rest[i].batchSize > 0.0 && count == Some(rest[i].batchSize)
                 && forall j | 0 <= j < i :: rest[j].batchSize <= 0.0;
        forall j | 0 <= j < i + 1 ensures rows[j].batchSize <= 0.0 { assert j == 0 || rows[j] == rest[j - 1]; }
        assert rows[i + 1] == rest[i];
      }
    }
  }

  // ------------------------------------------------------------------- the whole import

  /** The text without the slashes in front of it, trimmed. */
  ghost predicate Unslashed(text: string, order: string) {
    exists k | 0 <= k <= |text| ::
      && (forall i | 0 <= i < k :: text[i] == '/') && (k < |text| ==> text[k] != '/')
      && order == Trim(text[k..])
  }

  lemma {:induction false} SlashesOff(text: string)
    ensures Unslashed(text, Trim(TrimSlashes(text)))
  {
    hide Trim;
    var before := TrimStartCuts(text, c => c == '/');
    SlashesCut(text, before);
  }

  lemma SlashesCut(text: string, before: string)
    requires text == before + TrimSlashes(text) && forall c | c in before :: c == '/'
    ensures Unslashed(text, Trim(TrimSlashes(text)))
  {
    hide Trim;
    var k := |before|;
    assert text[k..] == TrimSlashes(text);
    forall i | 0 <= i < k ensures text[i] == '/' { assert before[i] in before; }
    NoSlashInFront(text);
  }

  lemma {:induction false} NoSlashInFront(text: string)
    ensures TrimSlashes(text) != [] ==> TrimSlashes(text)[0] != '/'
  {
  }

  /** What a plan takes from a document: map id, item, title and order number from the header's lines (the
      item for a missing title, the document's name for a missing order), rolls and chain from the rows
      that name a workstation, in order. */
  ghost predicate Imports(plan: Definition, document: Document, rows: seq<OperationRow>) {
    var lines := Lines(document.description);
    && Says(lines, "RS map id:", Some(plan.id)) && plan.id != ""
    && plan.productCode == Trim(document.productionItem)
    && (exists said ::
          && Says(lines, "Mahsulot:", said)
          && plan.title == if said.Some? && said.value != "" then said.value else Trim(document.productionItem))
    && (exists said ::
          && Says(lines, "Zakaz:", said)
          && Unslashed(if said.Some? then said.value else Trim(document.name), plan.orderNumber))
    && plan.code == plan.orderNumber
    && Arranged(rows, document.operations) && FirstPositive(rows, plan.rollCount)
    && plan.nodes == ChainNodes(rows, plan.title) && plan.edges == ChainEdges(|rows|)
  }

  lemma TitleIs(document: Document)
    ensures var said := DescriptionValue(document.description, "Mahsulot:");
            && Says(Lines(document.description), "Mahsulot:", said)
            && ImportedTitle(document)
               == if said.Some? && said.value != "" then said.value else Trim(document.productionItem)
  {
    hide Trim;
    FindValueSays(Lines(document.description), "Mahsulot:");
    SaidIsTrimmed(Lines(document.description), "Mahsulot:");
  }

  lemma OrderIs(document: Document)
    ensures var said := DescriptionValue(document.description, "Zakaz:");
            && Says(Lines(document.description), "Zakaz:", said)
            && Unslashed(if said.Some? then said.value else Trim(document.name), ImportedOrder(document))
  {
    hide Trim;
    FindValueSays(Lines(document.description), "Zakaz:");
    var said := DescriptionValue(document.description, "Zakaz:");
    SlashesOff(if said.Some? then said.value else Trim(document.name));
  }

  lemma IdIs(document: Document)
    ensures var said := DescriptionValue(document.description, "RS map id:");
            && Says(Lines(document.description), "RS map id:", said) && (said.Some? ==> Trim(said.value) == said.value)
  {
    FindValueSays(Lines(document.description), "RS map id:");
    SaidIsTrimmed(Lines(document.description), "RS map id:");
  }

  /** Every document: without a line for the map id, or with a blank one, there is no plan; else the plan
      is what the lines and the rows say. */
  lemma ImportIs(document: Document)
    ensures Import(document) == None
       <==> || Says(Lines(document.description), "RS map id:", None)
            || Says(Lines(document.description), "RS map id:", Some(""))
    ensures Import(document).Some? ==> Imports(Import(document).value, document, ImportedRows(document))
  {
    hide Trim, Says, Unslashed, Arranged, FirstPositive, ImportedTitle, ImportedOrder, ImportedRows;
    hide ChainNodes, ChainEdges, FirstWidth, FirstBatch, DescriptionValue;
    IdIs(document);
    TitleIs(document);
    OrderIs(document);
    RowsArranged(document);
    FirstBatchIs(ImportedRows(document));
    var said := DescriptionValue(document.description, "RS map id:");
    if Says(Lines(document.description), "RS map id:", None) {
      SaidOnce(Lines(document.description), "RS map id:", None, said);
    }
    if Says(Lines(document.description), "RS map id:", Some("")) {
      SaidOnce(Lines(document.description), "RS map id:", Some(""), said);
    }
  }
}
