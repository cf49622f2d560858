/** The order sheet as src/google_sheets.rs keeps it: layout, append and sync against a remote
    sheet whose requests may be dropped or may take effect without an answer. */
module OrderSheets {
  import opened Text
  import opened Sequences
  import opened ProductionGraph
  import opened WorkOrders
  import opened OrderRows

  type Sheet = seq<Row>

  /** What becomes of a request that changes the sheet. */
  datatype Fate = Done | Dropped | Unanswered

  /** What becomes of each request of one call; the token and the reads change nothing. */
  datatype Fates = Fates(token: bool, firstRead: bool, insert: Fate, header: Fate, format: Fate,
                         secondRead: bool, append: Fate)

  datatype SheetError = NoRow | AuthFailed | AppendFailed | ReadFailed | FormatFailed

  datatype Reply = Count(count: nat) | Failed(error: SheetError)

  // -------------------------------------------------------------------------- layout

  predicate SaysAt(row: Row, i: nat, text: string) {
    i < |row| && row[i] == Text(text)
  }

  predicate IsHeaderRow(row: Row) {
    SaysAt(row, 0, PRESS_HEADER) && SaysAt(row, 1, DATE_HEADER) && SaysAt(row, CODE_CELL, CODE_HEADER)
  }

  /** `sheet_has_header`. */
  predicate HasHeader(rows: Sheet) {
    rows != [] && IsHeaderRow(rows[0])
  }

  /** The header the sink writes; what follows holds for any row its own test takes for a header. */
  function SheetHeaders(): Row {
    [Text(PRESS_HEADER), Text(DATE_HEADER), Text("vaqt"), Text(CODE_HEADER), Text("zakaz nomi"), Text("zakaz kg"),
     Text("1 qavat"), Text("2 qavat"), Text("3 qavat"), Text("material razmer"),
     Text("1 qavat mikron"), Text("2 qavat mikron"), Text("3 qavat mikron"),
     Text("metr"), Text("qolib soni"), Text("rezina razmer")]
  }

  lemma SheetHeadersAreAHeader()
    ensures IsHeaderRow(SheetHeaders())
  {
  }

  function Perform(fate: Fate, before: Sheet, after: Sheet): Sheet {
    if fate == Dropped then before else after
  }

  function WithEmptyRow(s: Sheet): Sheet {
    [[]] + s
  }

  function WithHeader(s: Sheet, header: Row): Sheet {
    if s == [] then [header] else [header] + s[1..]
  }

  /** The sheet after `ensure_layout`, however far it got. */
  function LaidOut(s: Sheet, header: Row, f: Fates): Sheet {
    if !f.firstRead then s
    else if HasHeader(s) then Perform(f.header, s, WithHeader(s, header))
    else
      var t := Perform(f.insert, s, WithEmptyRow(s));
      if f.insert != Done then t else Perform(f.header, t, WithHeader(t, header))
  }

  function LayoutError(s: Sheet, f: Fates): Option<SheetError> {
    if !f.firstRead then Some(ReadFailed)
    else if !HasHeader(s) && f.insert != Done then Some(FormatFailed)
    else if f.header != Done || f.format != Done then Some(FormatFailed)
    else None
  }

  // ------------------------------------------------------------------ append and sync

  function Appended(s: Sheet, rows: seq<Row>, fate: Fate): Sheet {
    if rows == [] then s else Perform(fate, s, s + rows)
  }

  function AppendReply(rows: seq<Row>, fate: Fate): Reply {
    if rows == [] || fate == Done then Count(|rows|) else Failed(AppendFailed)
  }

  /** One call: the rows to append are chosen from the codes of the sheet as it stands after the
      layout. */
  function After(s: Sheet, header: Row, choose: set<string> -> seq<Row>, f: Fates): Sheet {
    if !f.token then s
    else
      var t := LaidOut(s, header, f);
      if LayoutError(s, f).Some? || !f.secondRead then t
      else Appended(t, choose(SheetCodes(t)), f.append)
  }

  function ReplyTo(s: Sheet, header: Row, choose: set<string> -> seq<Row>, f: Fates): Reply {
    if !f.token then Failed(AuthFailed)
    else
      match LayoutError(s, f)
      case Some(error) => Failed(error)
      case None =>
        if !f.secondRead then Failed(ReadFailed)
        else AppendReply(choose(SheetCodes(LaidOut(s, header, f))), f.append)
  }

  /** `append_order` appends the order's row unless its code is there. */
  function OneRow(row: Row): set<string> -> seq<Row> {
    (codes: set<string>) => if RowCode(row) in codes then [] else [row]
  }

  /** `sync_orders` appends the missing rows. */
  function SyncRows(plans: seq<Definition>, templates: seq<Template>, now: Stamp): set<string> -> seq<Row> {
    (codes: set<string>) => MissingRows(plans, templates, codes, now)
  }

  /** The remote sheet; every method is one request, or one call of the sink. */
  class RemoteSheet {
    var rows: Sheet

    method InsertHeaderRow(fate: Fate) returns (answered: bool)
      modifies this
      ensures rows == Perform(fate, old(rows), WithEmptyRow(old(rows))) && answered == (fate == Done)
    {
      if fate != Dropped {
        rows := [[]] + rows;
      }
      answered := fate == Done;
    }

    method WriteHeader(header: Row, fate: Fate) returns (answered: bool)
      modifies this
      ensures rows == Perform(fate, old(rows), WithHeader(old(rows), header)) && answered == (fate == Done)
    {
      if fate != Dropped {
        rows := if rows == [] then [header] else [header] + rows[1..];
      }
      answered := fate == Done;
    }

    method AppendRows(more: seq<Row>, fate: Fate) returns (reply: Reply)
      modifies this
      ensures rows == Appended(old(rows), more, fate) && reply == AppendReply(more, fate)
    {
      if more == [] {
        return Count(0);
      }
      if fate != Dropped {
        rows := rows + more;
      }
      reply := if fate == Done then Count(|more|) else Failed(AppendFailed);
    }

    /** `ensure_layout`. */
    method EnsureLayout(header: Row, f: Fates) returns (error: Option<SheetError>)
      modifies this
      ensures rows == LaidOut(old(rows), header, f) && error == LayoutError(old(rows), f)
    {
      if !f.firstRead {
        return Some(ReadFailed);
      }
      if !HasHeader(rows) {
        var inserted := InsertHeaderRow(f.insert);
        if !inserted {
          return Some(FormatFailed);
        }
      }
      var written := WriteHeader(header, f.header);
      if !written {
        return Some(FormatFailed);
      }
      error := if f.format == Done then None else Some(FormatFailed);
    }

    /** `append_order`. */
    method AppendOrder(plan: Definition, template: Template, now: Stamp, header: Row, f: Fates) returns (reply: Reply)
      modifies this
      ensures OrderSheetRow(plan, template, now) == None ==> rows == old(rows) && reply == Failed(NoRow)
      ensures OrderSheetRow(plan, template, now).Some? ==>
        var choose := OneRow(OrderSheetRow(plan, template, now).value);
        rows == After(old(rows), header, choose, f) && reply == ReplyTo(old(rows), header, choose, f)
    {
      var row := OrderSheetRow(plan, template, now);
      if row == None {
        return Failed(NoRow);
      }
      reply := AppendRow(row.value, header, f);
    }

    method AppendRow(row: Row, header: Row, f: Fates) returns (reply: Reply)
      modifies this
      ensures rows == After(old(rows), header, OneRow(row), f) && reply == ReplyTo(old(rows), header, OneRow(row), f)
    {
      if !f.token {
        return Failed(AuthFailed);
      }
      var error := EnsureLayout(header, f);
      if error.Some? {
        return Failed(error.value);
      }
      if !f.secondRead {
        return Failed(ReadFailed);
      }
      if RowCode(row) in SheetCodes(rows) {
        return Count(0);
      }
      reply := AppendRows([row], f.append);
    }

    /** `sync_orders`. */
    method SyncOrders(plans: seq<Definition>, templates: seq<Template>, now: Stamp, header: Row, f: Fates)
      returns (reply: Reply)
      modifies this
      ensures rows == After(old(rows), header, SyncRows(plans, templates, now), f)
      ensures reply == ReplyTo(old(rows), header, SyncRows(plans, templates, now), f)
    {
      if !f.token {
        return Failed(AuthFailed);
      }
      var error := EnsureLayout(header, f);
      if error.Some? {
        return Failed(error.value);
      }
      if !f.secondRead {
        return Failed(ReadFailed);
      }
      var more := MissingOrderRows(plans, templates, SheetCodes(rows), now);
      reply := AppendRows(more, f.append);
    }
  }

  // ------------------------------------------------------------- what every call keeps

  /** The codes of the sheet's orders, in row order. */
  function OrderCodes(s: Sheet): seq<string> {
    Filter(Map(s, RowCode), IsOrderCode)
  }

  predicate IsData(row: Row) {
    row != [] && !IsHeaderRow(row)
  }

  function DataRows(s: Sheet): seq<Row> {
    Filter(s, IsData)
  }

  /** Data rows stay, in place, and codes stay apart. */
  ghost predicate Keeps(before: Sheet, after: Sheet) {
    && DataRows(before) <= DataRows(after)
    && OrderCodes(before) <= OrderCodes(after)
    && (Distinct(OrderCodes(before)) ==> Distinct(OrderCodes(after)))
  }

  lemma KeepsTrans(a: Sheet, b: Sheet, c: Sheet)
    requires Keeps(a, b) && Keeps(b, c)
    ensures Keeps(a, c)
  {
  }

  lemma HeaderCode(row: Row)
    requires IsHeaderRow(row)
    ensures RowCode(row) == CODE_HEADER
  {
    SlashedCode(CODE_HEADER);
  }

  lemma NoData(row: Row)
    requires row == [] || IsHeaderRow(row)
    ensures !IsData(row) && !IsOrderCode(RowCode(row))
  {
    if IsHeaderRow(row) { HeaderCode(row); }
  }

  /** A header or an empty row in front shows neither data nor an order's code. */
  lemma FrontRow(row: Row, s: Sheet)
    requires row == [] || IsHeaderRow(row)
    ensures DataRows([row] + s) == DataRows(s) && OrderCodes([row] + s) == OrderCodes(s)
  {
    NoData(row);
    FilterOne(row, s, IsData);
    MapOfConcat([row], s, RowCode);
    assert Map([row], RowCode) == [RowCode(row)];
    FilterOne(RowCode(row), Map(s, RowCode), IsOrderCode);
  }

  lemma HeaderReplaced(front: Row, rest: Sheet, header: Row)
    requires IsHeaderRow(header) && (front == [] || IsHeaderRow(front))
    ensures DataRows([header] + rest) == DataRows([front] + rest)
    ensures OrderCodes([header] + rest) == OrderCodes([front] + rest)
  {
    FrontRow(header, rest);
    FrontRow(front, rest);
  }

  lemma HeaderAlone(header: Row)
    requires IsHeaderRow(header)
    ensures DataRows([header]) == DataRows([]) && OrderCodes([header]) == OrderCodes([])
  {
    FrontRow(header, []);
    assert [header] + [] == [header];
  }

  lemma FrontAndRest(s: Sheet)
    requires s != []
    ensures s == [s[0]] + s[1..]
  {
  }

  lemma HeaderWritten(s: Sheet, header: Row)
    requires IsHeaderRow(header) && (s == [] || s[0] == [] || IsHeaderRow(s[0]))
    ensures DataRows(WithHeader(s, header)) == DataRows(s) && OrderCodes(WithHeader(s, header)) == OrderCodes(s)
  {
    if s == [] {
      HeaderAlone(header);
    } else {
      HeaderReplaced(s[0], s[1..], header);
      FrontAndRest(s);
    }
  }

  lemma EmptyRowThenHeader(s: Sheet, header: Row)
    requires IsHeaderRow(header)
    ensures DataRows(WithEmptyRow(s)) == DataRows(s) && OrderCodes(WithEmptyRow(s)) == OrderCodes(s)
    ensures DataRows(WithHeader(WithEmptyRow(s), header)) == DataRows(s)
    ensures OrderCodes(WithHeader(WithEmptyRow(s), header)) == OrderCodes(s)
  {
    FrontRow([], s);
    HeaderWritten(WithEmptyRow(s), header);
  }

  /** Two sheets with the same data rows and the same order codes. */
  ghost predicate SameData(a: Sheet, b: Sheet) {
    DataRows(a) == DataRows(b) && OrderCodes(a) == OrderCodes(b)
  }

  lemma PerformSame(fate: Fate, s: Sheet, a: Sheet, b: Sheet)
    requires SameData(s, a) && SameData(s, b)
    ensures SameData(s, Perform(fate, a, b))
  {
  }

  lemma InsertedSame(s: Sheet, header: Row, f: Fates)
    requires IsHeaderRow(header)
    ensures var t := Perform(f.insert, s, WithEmptyRow(s));
            SameData(s, t) && (f.insert == Done ==> SameData(s, Perform(f.header, t, WithHeader(t, header))))
  {
    EmptyRowThenHeader(s, header);
    PerformSame(f.insert, s, s, WithEmptyRow(s));
    PerformSame(f.header, s, WithEmptyRow(s), WithHeader(WithEmptyRow(s), header));
  }

  lemma OverwrittenSame(s: Sheet, header: Row, f: Fates)
    requires IsHeaderRow(header) && HasHeader(s)
    ensures SameData(s, Perform(f.header, s, WithHeader(s, header)))
  {
    HeaderWritten(s, header);
    PerformSame(f.header, s, s, WithHeader(s, header));
  }

  /** Wherever `ensure_layout` stops, the data rows and their codes are as before: the header is
      written over a header or over the row just inserted. */
  lemma LayoutKeepsData(s: Sheet, header: Row, f: Fates)
    requires IsHeaderRow(header)
    ensures SameData(s, LaidOut(s, header, f))
  {
    if f.firstRead {
      if HasHeader(s) { OverwrittenSame(s, header, f); } else { InsertedSame(s, header, f); }
    }
  }

  lemma CodeListed(s: Sheet, code: string)
    requires IsOrderCode(code)
    ensures code in OrderCodes(s) <==> code in SheetCodes(s)
  {
    var codes := Map(s, RowCode);
    if code in OrderCodes(s) {
      var i :| 0 <= i < |codes| && codes[i] == code;
      assert s[i] in s;
    }
    if code in SheetCodes(s) {
      var row :| row in s && RowCode(row) == code;
      var i :| 0 <= i < |s| && s[i] == row;
      assert codes[i] == code;
    }
  }

  lemma {:induction false} AllOrderCodes(rows: seq<Row>)
    requires forall row | row in rows :: IsOrderCode(RowCode(row))
    ensures OrderCodes(rows) == Map(rows, RowCode)
  {
    if rows != [] {
      var init, last := rows[..|rows| - 1], rows[|rows| - 1];
      assert rows == init + [last];
      AllOrderCodes(init);
      assert Map(rows, RowCode) == Map(init, RowCode) + [RowCode(last)];
      FilterSnoc(Map(init, RowCode), RowCode(last), IsOrderCode);
    }
  }

  /** Rows fit to be appended. */
  ghost predicate Fresh(rows: seq<Row>, codes: set<string>) {
    CodesApart(rows) && forall row | row in rows :: IsOrderCode(RowCode(row)) && RowCode(row) !in codes
  }

  lemma DistinctConcat(a: seq<string>, b: seq<string>)
    requires Distinct(a) && Distinct(b) && forall x | x in b :: x !in a
    ensures Distinct(a + b)
  {
    forall i, j | 0 <= i < j < |a + b| ensures (a + b)[i] != (a + b)[j] {
      if i < |a| <= j { assert (a + b)[j] in b; }
    }
  }

  lemma CodesOfConcat(s: Sheet, rows: seq<Row>)
    ensures OrderCodes(s + rows) == OrderCodes(s) + OrderCodes(rows)
  {
    MapOfConcat(s, rows, RowCode);
    FilterOfConcat(Map(s, RowCode), Map(rows, RowCode), IsOrderCode);
  }

  lemma FreshCodesApart(rows: seq<Row>, s: Sheet)
    requires Fresh(rows, SheetCodes(s))
    ensures Distinct(OrderCodes(rows)) && forall code | code in OrderCodes(rows) :: code !in OrderCodes(s)
  {
    AllOrderCodes(rows);
    forall code | code in OrderCodes(rows) ensures code !in OrderCodes(s) {
      var i :| 0 <= i < |rows| && RowCode(rows[i]) == code;
      assert rows[i] in rows;
      CodeListed(s, code);
    }
  }

  lemma AppendKeeps(s: Sheet, rows: seq<Row>)
    requires Fresh(rows, SheetCodes(s))
    ensures Keeps(s, s + rows)
  {
    FilterOfConcat(s, rows, IsData);
    CodesOfConcat(s, rows);
    FreshCodesApart(rows, s);
    if Distinct(OrderCodes(s)) { DistinctConcat(OrderCodes(s), OrderCodes(rows)); }
  }

  /** Rows chosen from any codes are fit to be appended to a sheet with those codes. */
  ghost predicate Chooses(choose: set<string> -> seq<Row>) {
    forall codes :: Fresh(choose(codes), codes)
  }

  /** Whatever its requests' fates, one call loses no data row, duplicates no code. */
  lemma CallKeeps(s: Sheet, header: Row, choose: set<string> -> seq<Row>, f: Fates)
    requires IsHeaderRow(header) && Chooses(choose)
    ensures Keeps(s, After(s, header, choose, f))
  {
    var t := LaidOut(s, header, f);
    LayoutKeepsData(s, header, f);
    AppendKeeps(t, choose(SheetCodes(t)));
  }

  lemma OneRowChooses(plan: Definition, template: Template, now: Stamp)
    requires OrderSheetRow(plan, template, now).Some?
    ensures Chooses(OneRow(OrderSheetRow(plan, template, now).value))
  {
    RowCodeIsOrderNumber(plan, template, now);
  }

  lemma MissingChooses(plans: seq<Definition>, templates: seq<Template>, now: Stamp)
    ensures Chooses(SyncRows(plans, templates, now))
  {
    forall codes ensures Fresh(SyncRows(plans, templates, now)(codes), codes) {
      MissingRowsAre(plans, templates, codes, now);
    }
  }

  // ---------------------------------------------------------------------- whole runs

  datatype Call =
    | Append(plan: Definition, template: Template, now: Stamp, fates: Fates)
    | Sync(plans: seq<Definition>, templates: seq<Template>, now: Stamp, fates: Fates)

  function Step(s: Sheet, header: Row, call: Call): Sheet {
    match call
    case Append(plan, template, now, fates) =>
      (match OrderSheetRow(plan, template, now)
       case None => s
       case Some(row) => After(s, header, OneRow(row), fates))
    case Sync(plans, templates, now, fates) => After(s, header, SyncRows(plans, templates, now), fates)
  }

  function Run(s: Sheet, header: Row, calls: seq<Call>): Sheet {
    if calls == [] then s else Step(Run(s, header, calls[..|calls| - 1]), header, calls[|calls| - 1])
  }

  lemma StepKeeps(s: Sheet, header: Row, call: Call)
    requires IsHeaderRow(header)
    ensures Keeps(s, Step(s, header, call))
  {
    match call
    case Append(plan, template, now, fates) =>
      var row := OrderSheetRow(plan, template, now);
      if row.Some? {
        OneRowChooses(plan, template, now);
        CallKeeps(s, header, OneRow(row.value), fates);
      }
    case Sync(plans, templates, now, fates) =>
      MissingChooses(plans, templates, now);
      CallKeeps(s, header, SyncRows(plans, templates, now), fates);
  }

  /** Over any run of calls one after another, with any requests dropped or unanswered, no data
      row is lost, moved or overwritten and no order code is ever in the sheet twice. */
  lemma {:induction false} RunKeeps(s: Sheet, header: Row, calls: seq<Call>)
    requires IsHeaderRow(header)
    ensures Keeps(s, Run(s, header, calls))
  {
    if calls != [] {
      var before := Run(s, header, calls[..|calls| - 1]);
      RunKeeps(s, header, calls[..|calls| - 1]);
      StepKeeps(before, header, calls[|calls| - 1]);
      KeepsTrans(s, before, Run(s, header, calls));
    }
  }

  // ------------------------------------------------------------------ what a sync leaves

  /** The call got as far as its append, and the append took effect or was not needed. */
  predicate TookEffect(s: Sheet, header: Row, choose: set<string> -> seq<Row>, f: Fates) {
    && f.token && LayoutError(s, f) == None && f.secondRead
    && (f.append != Dropped || choose(SheetCodes(LaidOut(s, header, f))) == [])
  }

  /** A call that answers with a count took effect. */
  lemma AnsweredTookEffect(s: Sheet, header: Row, choose: set<string> -> seq<Row>, f: Fates)
    requires ReplyTo(s, header, choose, f).Count?
    ensures TookEffect(s, header, choose, f)
  {
  }

  lemma CodesAppended(s: Sheet, rows: seq<Row>, code: string)
    requires code != "" && (code in SheetCodes(s) || HoldsCode(rows, code))
    ensures code in SheetCodes(s + rows)
  {
    if code in SheetCodes(s) {
      var row :| row in s && RowCode(row) == code;
      assert row in s + rows;
    } else {
      var row :| row in rows && RowCode(row) == code;
      assert row in s + rows;
    }
  }

  lemma EffectIs(s: Sheet, header: Row, choose: set<string> -> seq<Row>, f: Fates)
    requires TookEffect(s, header, choose, f)
    ensures After(s, header, choose, f) == LaidOut(s, header, f) + choose(SheetCodes(LaidOut(s, header, f)))
  {
    assert LaidOut(s, header, f) + [] == LaidOut(s, header, f);
  }

  lemma OrderAppended(t: Sheet, plans: seq<Definition>, templates: seq<Template>, now: Stamp, plan: Definition)
    requires plan in plans && EligibleRow(plan, templates, now).Some?
    ensures Trim(plan.orderNumber) in SheetCodes(t + MissingRows(plans, templates, SheetCodes(t), now))
  {
    MissingRowsAre(plans, templates, SheetCodes(t), now);
    EligibleCode(plan, templates, now);
    CodesAppended(t, MissingRows(plans, templates, SheetCodes(t), now), Trim(plan.orderNumber));
  }

  /** A sync that took effect, answered or not, leaves every order that gets a row in the sheet. */
  lemma SyncLeavesOrders(s: Sheet, header: Row, plans: seq<Definition>, templates: seq<Template>, now: Stamp, f: Fates)
    requires TookEffect(s, header, SyncRows(plans, templates, now), f)
    ensures forall plan | plan in plans && EligibleRow(plan, templates, now).Some? ::
      Trim(plan.orderNumber) in SheetCodes(After(s, header, SyncRows(plans, templates, now), f))
  {
    EffectIs(s, header, SyncRows(plans, templates, now), f);
    forall plan | plan in plans && EligibleRow(plan, templates, now).Some?
      ensures Trim(plan.orderNumber) in SheetCodes(After(s, header, SyncRows(plans, templates, now), f))
    {
      OrderAppended(LaidOut(s, header, f), plans, templates, now, plan);
    }
  }

  /** So does an append for its order. */
  lemma AppendLeavesOrder(s: Sheet, header: Row, plan: Definition, template: Template, now: Stamp, f: Fates)
    requires OrderSheetRow(plan, template, now).Some?
    requires TookEffect(s, header, OneRow(OrderSheetRow(plan, template, now).value), f)
    ensures Trim(plan.orderNumber) in SheetCodes(After(s, header, OneRow(OrderSheetRow(plan, template, now).value), f))
  {
    var t, row := LaidOut(s, header, f), OrderSheetRow(plan, template, now).value;
    EffectIs(s, header, OneRow(row), f);
    RowCodeIsOrderNumber(plan, template, now);
    if RowCode(row) !in SheetCodes(t) {
      assert row in [row];
      CodesAppended(t, [row], RowCode(row));
    } else {
      assert t + [] == t;
    }
  }

  /** A call of `append_order` that took effect decided on the codes of the very sheet it appended to. */
  lemma AppendReadsItsOwnSheet(s: Sheet, header: Row, row: Row, f: Fates)
    requires TookEffect(s, header, OneRow(row), f)
    ensures var t := LaidOut(s, header, f);
            After(s, header, OneRow(row), f) == if RowCode(row) in SheetCodes(t) then t else t + [row]
  {
    EffectIs(s, header, OneRow(row), f);
    assert LaidOut(s, header, f) + [] == LaidOut(s, header, f);
  }

  lemma LaidOutHasHeader(s: Sheet, header: Row, f: Fates)
    requires IsHeaderRow(header) && LayoutError(s, f) == None
    ensures LaidOut(s, header, f) != [] && LaidOut(s, header, f)[0] == header
  {
  }

  lemma LayoutSettled(s: Sheet, header: Row, f: Fates)
    requires IsHeaderRow(header) && s != [] && s[0] == header
    ensures LaidOut(s, header, f) == s
  {
    assert [header] + s[1..] == s;
  }

  /** Whether an order gets a row does not depend on the clock. */
  lemma ClockDoesNotMatter(plan: Definition, templates: seq<Template>, now: Stamp, later: Stamp)
    ensures EligibleRow(plan, templates, now).Some? == EligibleRow(plan, templates, later).Some?
  {
  }

  /** After a sync that took effect, answered or not, a second sync of the same orders appends
      nothing and changes nothing, at any later time and whatever becomes of its own requests. */
  lemma SecondSyncChangesNothing(s: Sheet, header: Row, plans: seq<Definition>, templates: seq<Template>,
                                 now: Stamp, f: Fates, later: Stamp, g: Fates)
    requires IsHeaderRow(header) && TookEffect(s, header, SyncRows(plans, templates, now), f)
    ensures var t := After(s, header, SyncRows(plans, templates, now), f);
            && After(t, header, SyncRows(plans, templates, later), g) == t
            && ReplyTo(t, header, SyncRows(plans, templates, later), g)
               in {Count(0), Failed(AuthFailed), Failed(ReadFailed), Failed(FormatFailed)}
  {
    var t := After(s, header, SyncRows(plans, templates, now), f);
    LaidOutHasHeader(s, header, f);
    LayoutSettled(t, header, g);
    SyncLeavesOrders(s, header, plans, templates, now, f);
    var rows := EligibleRows(plans, templates, later);
    forall row | row in rows ensures RowCode(row) in SheetCodes(t) {
      EligibleRowsAre(plans, templates, later, row);
      var plan :| plan in plans && EligibleRow(plan, templates, later) == Some(row);
      ClockDoesNotMatter(plan, templates, now, later);
      EligibleCode(plan, templates, later);
    }
    NothingNew(rows, SheetCodes(t));
  }

  /** So with the header the sink writes. */
  lemma SinkRunKeeps(s: Sheet, calls: seq<Call>)
    ensures Keeps(s, Run(s, SheetHeaders(), calls))
  {
    SheetHeadersAreAHeader();
    RunKeeps(s, SheetHeaders(), calls);
  }
}
