/** The rows of the order sheet (src/google_sheets.rs): which orders get one, its cells and its
    code, and the rows a sheet lacks. */
module OrderRows {
  import opened Text
  import opened Decimals
  import opened Sequences
  import opened ProductionGraph
  import opened WorkOrders
  import F = Formula

  datatype Cell = Text(text: string) | Number(value: real)

  type Row = seq<Cell>

  /** The clock the row shows. */
  datatype Stamp = Stamp(day: nat, month: nat, hour: nat, minute: nat)

  const PRESS_HEADER := "pechat"
  const DATE_HEADER := "sana"
  const CODE_HEADER := "kod"
  const CODE_CELL := 3

  // -------------------------------------------------------------------------- cells

  /** `is_sheet_order_map`. */
  predicate IsSheetOrder(plan: Definition) {
    var number := Trim(plan.orderNumber);
    "zakaz-" <= Trim(plan.id) && ByteLen(number) == 4 && AllDigits(number)
  }

  predicate SaysFlexo(lower: string) {
    Contains(lower, "flex") || Contains(lower, "fleks") || Contains(lower, "flekso")
  }

  function AssignedTitles(nodes: seq<Node>): seq<string> {
    if nodes == [] then []
    else
      var rest := AssignedTitles(nodes[1..]);
      if nodes[0].kind == Apparatus && Trim(nodes[0].assignedTitle) != [] then rest + [Trim(nodes[0].assignedTitle)]
      else rest
  }

  function PlainTitles(nodes: seq<Node>): seq<string> {
    if nodes == [] then []
    else (if nodes[0].kind == Apparatus then [Trim(nodes[0].title)] else []) + PlainTitles(nodes[1..])
  }

  function Colours(lower: string, digit: string): bool {
    Contains(lower, digit + " ta rangli") || Contains(lower, digit + " rangli")
  }

  function TitleMarker(lower: string): string {
    if SaysFlexo(lower) then "F"
    else if Colours(lower, "9") then "9"
    else if Colours(lower, "8") then "8"
    else if Colours(lower, "7") then "7"
    else ""
  }

  function FirstMarker(titles: seq<string>): string {
    if titles == [] then ""
    else if TitleMarker(Lower(titles[0])) != [] then TitleMarker(Lower(titles[0]))
    else FirstMarker(titles[1..])
  }

  /** `sheet_press_marker`: assigned titles, the last one first, before the nodes' own titles. */
  function PressMarker(plan: Definition, template: Template): string {
    if SaysFlexo(Lower(template.product + " " + template.name)) then "F"
    else FirstMarker(AssignedTitles(plan.nodes) + PlainTitles(plan.nodes))
  }

  /** `sheet_order_code`. */
  function OrderCode(plan: Definition, template: Template): string {
    var code := OrderNumber(plan, template);
    if "/" <= code then code else "/" + code
  }

  function CalculateRequest(template: Template): F.Request {
    F.Request(Some(template.kg), Some(template.widthMm), Some(template.wastePercent),
              TrimLayer(template.first), TrimLayer(template.second), TrimLayer(template.third))
  }

  function DateText(now: Stamp): string {
    ZeroPadded(now.day, 2) + "/" + ZeroPadded(now.month, 2)
  }

  function TimeText(now: Stamp): string {
    ZeroPadded(now.hour, 2) + ":" + ZeroPadded(now.minute, 2)
  }

  function RowCells(plan: Definition, template: Template, length: real, now: Stamp): Row {
    [Text(PressMarker(plan, template)), Text(DateText(now)), Text(TimeText(now)), Text(OrderCode(plan, template))]
    + OrderCells(plan, template, length)
  }

  /** The cells after the code. */
  function OrderCells(plan: Definition, template: Template, length: real): Row {
    [Text(ProductName(plan, template)),
     Number(template.kg),
     Text(Trim(template.first.material)), Text(Trim(template.second.material)), Text(Trim(template.third.material)),
     Number(template.widthMm),
     Text(Trim(template.first.micron)), Text(Trim(template.second.micron)), Text(Trim(template.third.micron)),
     Number(length),
     if template.rollCount.Some? then Number(template.rollCount.value) else Text(""),
     Number(F.RubberSize(template.widthMm) as real)]
  }

  /** `order_sheet_row`. */
  function OrderSheetRow(plan: Definition, template: Template, now: Stamp): Option<Row> {
    if !IsSheetOrder(plan) || template.kg <= 0.0 then None
    else
      match F.Calculate(CalculateRequest(template))
      case Err(_) => None
      case Ok(results) =>
        if results == [] then None else Some(RowCells(plan, template, results[0].roundedLength, now))
  }

  // -------------------------------------------------------------------------- codes

  /** `normalize_sheet_code`. */
  function NormalizeCode(value: string): string {
    Trim(TrimSlashes(Trim(value)))
  }

  /** `row_code`: empty when the row has no text there. */
  function RowCode(row: Row): string {
    if |row| > CODE_CELL && row[CODE_CELL].Text? then NormalizeCode(row[CODE_CELL].text) else ""
  }

  /** `sheet_codes`. */
  function SheetCodes(rows: seq<Row>): set<string> {
    set row | row in rows && RowCode(row) != "" :: RowCode(row)
  }

  lemma SlashedCode(number: string)
    requires Tight(number) && (number == [] || number[0] != '/')
    ensures NormalizeCode("/" + number) == number && NormalizeCode(number) == number
  {
    TrimOfTight(number, IsWhite);
    TrimOfTight("/" + number, IsWhite);
    SlashCut(number);
  }

  lemma OrderNumberOf(plan: Definition, template: Template)
    requires IsSheetOrder(plan)
    ensures OrderNumber(plan, template) == Trim(plan.orderNumber)
  {
    assert Trim(plan.orderNumber) != [] by { assert ByteLen(Trim(plan.orderNumber)) == 4; }
  }

  lemma CodeOfOrder(plan: Definition, template: Template)
    requires IsSheetOrder(plan)
    ensures NormalizeCode(OrderCode(plan, template)) == Trim(plan.orderNumber)
    ensures Trim(plan.orderNumber) != [] && IsDigit(Trim(plan.orderNumber)[0])
  {
    var number := Trim(plan.orderNumber);
    OrderNumberOf(plan, template);
    TrimTwice(plan.orderNumber);
    assert number != [];
    SlashedCode(number);
  }

  lemma RowCellsCode(plan: Definition, template: Template, length: real, now: Stamp)
    ensures RowCode(RowCells(plan, template, length, now)) == NormalizeCode(OrderCode(plan, template))
  {
    CodeInFront(Text(PressMarker(plan, template)), Text(DateText(now)), Text(TimeText(now)), OrderCode(plan, template),
                OrderCells(plan, template, length));
  }

  lemma CodeInFront(a: Cell, b: Cell, c: Cell, code: string, rest: Row)
    ensures RowCode([a, b, c, Text(code)] + rest) == NormalizeCode(code)
  {
  }

  /** The code read back from an order's row is the order number, without the slash the row
      shows; so it is never empty and never the header's. */
  lemma RowCodeIsOrderNumber(plan: Definition, template: Template, now: Stamp)
    requires OrderSheetRow(plan, template, now).Some?
    ensures RowCode(OrderSheetRow(plan, template, now).value) == Trim(plan.orderNumber)
    ensures IsOrderCode(RowCode(OrderSheetRow(plan, template, now).value))
  {
    CodeOfOrder(plan, template);
    match F.Calculate(CalculateRequest(template))
    case Err(_) =>
    case Ok(results) => RowCellsCode(plan, template, results[0].roundedLength, now);
  }

  /** A code of the data, not of the header. */
  predicate IsOrderCode(code: string) {
    code != "" && code != CODE_HEADER
  }

  // ------------------------------------------------------------------- missing rows

  predicate MatchesTemplate(plan: Definition, template: Template) {
    || Trim(template.sourceMapId) == Trim(plan.id)
    || Trim(template.orderNumber) == Trim(plan.orderNumber)
    || Trim(template.code) == Trim(plan.code)
  }

  function FirstTemplate(plan: Definition, templates: seq<Template>): Option<Template> {
    if templates == [] then None
    else if MatchesTemplate(plan, templates[0]) then Some(templates[0])
    else FirstTemplate(plan, templates[1..])
  }

  /** The row an order gets: from the first template that matches it. */
  function EligibleRow(plan: Definition, templates: seq<Template>, now: Stamp): Option<Row> {
    if !IsSheetOrder(plan) then None
    else
      match FirstTemplate(plan, templates)
      case None => None
      case Some(template) => OrderSheetRow(plan, template, now)
  }

  function RowFor(templates: seq<Template>, now: Stamp): Definition -> Option<Row> {
    plan => EligibleRow(plan, templates, now)
  }

  function Picked<T, U>(s: seq<T>, pick: T -> Option<U>): seq<U> {
    if s == [] then []
    else (match pick(s[0]) case None => [] case Some(u) => [u]) + Picked(s[1..], pick)
  }

  /** The rows of the orders that get one, in the orders' order. */
  function EligibleRows(plans: seq<Definition>, templates: seq<Template>, now: Stamp): seq<Row> {
    Picked(plans, RowFor(templates, now))
  }

  /** The first row of each code that is not seen yet. */
  function FirstOfEach(rows: seq<Row>, seen: set<string>): seq<Row> {
    if rows == [] then []
    else if RowCode(rows[0]) in seen then FirstOfEach(rows[1..], seen)
    else [rows[0]] + FirstOfEach(rows[1..], seen + {RowCode(rows[0])})
  }

  function MissingRows(plans: seq<Definition>, templates: seq<Template>, existing: set<string>, now: Stamp): seq<Row> {
    FirstOfEach(EligibleRows(plans, templates, now), existing)
  }

  method FindTemplate(plan: Definition, templates: seq<Template>) returns (found: Option<Template>)
    ensures found == FirstTemplate(plan, templates)
  {
    for i := 0 to |templates|
      invariant FirstTemplate(plan, templates) == FirstTemplate(plan, templates[i..])
    {
      if MatchesTemplate(plan, templates[i]) {
        return Some(templates[i]);
      }
      assert templates[i..][1..] == templates[i + 1..];
    }
    found := None;
  }

  lemma PickedNext<T, U>(s: seq<T>, i: nat, pick: T -> Option<U>)
    requires i < |s|
    ensures Picked(s[i..], pick) == (match pick(s[i]) case None => [] case Some(u) => [u]) + Picked(s[i + 1..], pick)
  {
    assert s[i..][1..] == s[i + 1..];
  }

  lemma EligibleStep(plans: seq<Definition>, i: nat, templates: seq<Template>, now: Stamp)
    requires i < |plans|
    ensures EligibleRows(plans[i..], templates, now)
         == (match EligibleRow(plans[i], templates, now) case None => [] case Some(row) => [row])
            + EligibleRows(plans[i + 1..], templates, now)
  {
    PickedNext(plans, i, RowFor(templates, now));
  }

  lemma FirstStep(done: seq<Row>, row: Row, rest: seq<Row>, seen: set<string>)
    ensures done + FirstOfEach([row] + rest, seen)
         == if RowCode(row) in seen then done + FirstOfEach(rest, seen)
            else (done + [row]) + FirstOfEach(rest, seen + {RowCode(row)})
  {
    assert ([row] + rest)[1..] == rest;
  }

  lemma EmptyFirst(rest: seq<Row>)
    ensures [] + rest == rest
  {
  }

  /** The turn of `missing_order_rows` that finds an order's row. */
  method FindRow(plan: Definition, templates: seq<Template>, now: Stamp) returns (row: Option<Row>)
    ensures row == EligibleRow(plan, templates, now)
  {
    if !IsSheetOrder(plan) {
      return None;
    }
    var template := FindTemplate(plan, templates);
    if template == None {
      return None;
    }
    row := OrderSheetRow(plan, template.value, now);
  }

  /** `missing_order_rows`. */
  method MissingOrderRows(plans: seq<Definition>, templates: seq<Template>, existing: set<string>, now: Stamp)
    returns (rows: seq<Row>)
    ensures rows == MissingRows(plans, templates, existing, now)
  {
    var seen := existing;
    rows := [];
    assert plans[0..] == plans;
    for i := 0 to |plans|
      invariant rows + FirstOfEach(EligibleRows(plans[i..], templates, now), seen)
             == MissingRows(plans, templates, existing, now)
    {
      var row := FindRow(plans[i], templates, now);
      EligibleStep(plans, i, templates, now);
      if row.Some? {
        FirstStep(rows, row.value, EligibleRows(plans[i + 1..], templates, now), seen);
        var code := RowCode(row.value);
        if code !in seen {
          seen := seen + {code};
          rows := rows + [row.value];
        }
      } else {
        EmptyFirst(EligibleRows(plans[i + 1..], templates, now));
      }
    }
  }

  // -------------------------------------------------------------- what they are

  predicate HoldsCode(rows: seq<Row>, code: string) {
    exists row | row in rows :: RowCode(row) == code
  }

  predicate CodesApart(rows: seq<Row>) {
    forall i, j | 0 <= i < j < |rows| :: RowCode(rows[i]) != RowCode(rows[j])
  }

  lemma {:induction false} PickedAre<T, U>(s: seq<T>, pick: T -> Option<U>, u: U)
    ensures u in Picked(s, pick) <==> exists t | t in s :: pick(t) == Some(u)
  {
    if s != [] {
      PickedAre(s[1..], pick, u);
      assert s == [s[0]] + s[1..];
    }
  }

  lemma EligibleRowsAre(plans: seq<Definition>, templates: seq<Template>, now: Stamp, row: Row)
    ensures row in EligibleRows(plans, templates, now)
       <==> exists plan | plan in plans :: EligibleRow(plan, templates, now) == Some(row)
  {
    var pick := RowFor(templates, now);
    PickedAre(plans, pick, row);
    if plan :| plan in plans && EligibleRow(plan, templates, now) == Some(row) { assert pick(plan) == Some(row); }
  }

  lemma EligibleCode(plan: Definition, templates: seq<Template>, now: Stamp)
    requires EligibleRow(plan, templates, now).Some?
    ensures RowCode(EligibleRow(plan, templates, now).value) == Trim(plan.orderNumber)
    ensures IsOrderCode(Trim(plan.orderNumber))
  {
    RowCodeIsOrderNumber(plan, FirstTemplate(plan, templates).value, now);
  }

  /** The kept rows are rows of the list with a code not seen before. */
  lemma {:induction false} FirstAreNew(rows: seq<Row>, seen: set<string>)
    ensures forall row | row in FirstOfEach(rows, seen) :: row in rows && RowCode(row) !in seen
  {
    if rows != [] {
      FirstAreNew(rows[1..], if RowCode(rows[0]) in seen then seen else seen + {RowCode(rows[0])});
      assert rows[0] in rows;
    }
  }

  /** No two kept rows have the same code. */
  lemma {:induction false} FirstApart(rows: seq<Row>, seen: set<string>)
    ensures CodesApart(FirstOfEach(rows, seen))
  {
    if rows != [] {
      if RowCode(rows[0]) in seen {
        FirstApart(rows[1..], seen);
      } else {
        var more := seen + {RowCode(rows[0])};
        var rest := FirstOfEach(rows[1..], more);
        FirstApart(rows[1..], more);
        FirstAreNew(rows[1..], more);
        forall j | 0 <= j < |rest| ensures RowCode(rest[j]) != RowCode(rows[0]) { assert rest[j] in rest; }
      }
    }
  }

  /** Every row's code is seen or kept. */
  lemma {:induction false} FirstCover(rows: seq<Row>, seen: set<string>, row: Row)
    requires row in rows
    ensures RowCode(row) in seen || HoldsCode(FirstOfEach(rows, seen), RowCode(row))
  {
    var all := FirstOfEach(rows, seen);
    if row == rows[0] {
      assert RowCode(row) !in seen ==> rows[0] in all;
    } else if RowCode(rows[0]) in seen {
      FirstCover(rows[1..], seen, row);
    } else {
      var more := seen + {RowCode(rows[0])};
      FirstCover(rows[1..], more, row);
      assert rows[0] in all;
      assert forall r | r in FirstOfEach(rows[1..], more) :: r in all;
    }
  }

  /** Nothing is kept once every code is seen. */
  lemma {:induction false} NothingNew(rows: seq<Row>, seen: set<string>)
    requires forall row | row in rows :: RowCode(row) in seen
    ensures FirstOfEach(rows, seen) == []
  {
    if rows != [] { NothingNew(rows[1..], seen); }
  }

  /** The rows a sheet lacks: each has an order's code the sheet does not hold, no two share one,
      and every order that gets a row is in the sheet or among them. */
  lemma MissingRowsAre(plans: seq<Definition>, templates: seq<Template>, existing: set<string>, now: Stamp)
    ensures var rows := MissingRows(plans, templates, existing, now);
            && CodesApart(rows)
            && (forall row | row in rows :: RowCode(row) !in existing && IsOrderCode(RowCode(row)))
            && (forall plan | plan in plans && EligibleRow(plan, templates, now).Some? ::
                  Trim(plan.orderNumber) in existing || HoldsCode(rows, Trim(plan.orderNumber)))
  {
    var made := EligibleRows(plans, templates, now);
    FirstApart(made, existing);
    FirstAreNew(made, existing);
    forall row | row in MissingRows(plans, templates, existing, now) ensures IsOrderCode(RowCode(row)) {
      EligibleRowsAre(plans, templates, now, row);
      var plan :| plan in plans && EligibleRow(plan, templates, now) == Some(row);
      EligibleCode(plan, templates, now);
    }
    forall plan | plan in plans && EligibleRow(plan, templates, now).Some?
      ensures Trim(plan.orderNumber) in existing
           || HoldsCode(MissingRows(plans, templates, existing, now), Trim(plan.orderNumber))
    {
      var row := EligibleRow(plan, templates, now).value;
      EligibleRowsAre(plans, templates, now, row);
      EligibleCode(plan, templates, now);
      FirstCover(made, existing, row);
    }
  }

  // ------------------------------------------------------ which template an order gets

  /** A template made for the order: it names the order's map or its number. */
  predicate Own(plan: Definition, template: Template) {
    || Trim(template.sourceMapId) == Trim(plan.id)
    || Trim(template.orderNumber) == Trim(plan.orderNumber)
  }

  /** Two blank codes are the same code. */
  predicate SameCode(plan: Definition, template: Template) {
    Trim(template.code) == Trim(plan.code)
  }

  function OwnOf(plan: Definition): Template -> bool { template => Own(plan, template) }
  function SameCodeAs(plan: Definition): Template -> bool { template => SameCode(plan, template) }

  lemma FirstTemplateNext(plan: Definition, first: Template, rest: seq<Template>)
    ensures FirstTemplate(plan, [first] + rest)
         == if Own(plan, first) || SameCode(plan, first) then Some(first) else FirstTemplate(plan, rest)
  {
    assert ([first] + rest)[1..] == rest;
  }

  /** An order gets a template of its own exactly when one stands before every other template that
      shares the order's code. */
  lemma {:induction false} OwnTemplateFound(plan: Definition, templates: seq<Template>)
    ensures FirstTemplate(plan, templates).Some? && Own(plan, FirstTemplate(plan, templates).value)
       <==> ComesFirst(templates, OwnOf(plan), SameCodeAs(plan))
  {
    if templates != [] {
      var first, rest := templates[0], templates[1..];
      assert templates == [first] + rest;
      OwnTemplateFound(plan, rest);
      FirstTemplateNext(plan, first, rest);
      ComesNext(first, rest, OwnOf(plan), SameCodeAs(plan));
    }
  }

  function BareTemplate(orderNumber: string, kg: real): Template {
    Template("", "", orderNumber, "", "", "", 100.0, 0.0, None, kg, F.Layer("", ""), F.Layer("", ""), F.Layer("", ""))
  }

  /** An order without a code and two templates without one, the second of them the order's own: the
      order gets the first, of another order. */
  lemma BlankCodesMatch(nodes: seq<Node>, edges: seq<Edge>)
    ensures var plan := Definition("zakaz-2", "", "", "", "0002", None, None, nodes, edges);
            var other, own := BareTemplate("0001", 5.0), BareTemplate("0002", 7.0);
            Own(plan, own) && !Own(plan, other) && FirstTemplate(plan, [other, own]) == Some(other)
  {
    var plan := Definition("zakaz-2", "", "", "", "0002", None, None, nodes, edges);
    TrimOfTight("zakaz-2", IsWhite);
    TrimOfTight("0001", IsWhite);
    TrimOfTight("0002", IsWhite);
    TrimOfTight("", IsWhite);
  }
}
