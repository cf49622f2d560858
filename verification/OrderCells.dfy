/** The cells of an order's row (src/google_sheets.rs:349-407, 472-525): when there is a row, and what
    stands in each of its sixteen columns. */
module OrderCells {
  import opened Text
  import opened Decimals
  import opened Sequences
  import opened ProductionGraph
  import opened WorkOrders
  import opened OrderRows
  import opened OrderSheets
  import F = Formula
  import K = KnownOrders

  // -------------------------------------------------------------------- press marker

  predicate Flexo(text: string) {
    Contains(text, "flex") || Contains(text, "fleks")
  }

  predicate Coloured(text: string, few: string, many: string) {
    Contains(text, few) || Contains(text, many)
  }

  /** What a title says of the press: "F" for flexo, else the largest number of colours it names. */
  ghost predicate Marks(marker: string, low: string) {
    var nine, eight, seven := Coloured(low, "9 ta rangli", "9 rangli"), Coloured(low, "8 ta rangli", "8 rangli"),
                              Coloured(low, "7 ta rangli", "7 rangli");
    && (marker == "F" <==> Flexo(low))
    && (marker == "9" <==> !Flexo(low) && nine)
    && (marker == "8" <==> !Flexo(low) && !nine && eight)
    && (marker == "7" <==> !Flexo(low) && !nine && !eight && seven)
    && (marker == "" <==> !Flexo(low) && !nine && !eight && !seven)
  }

  lemma FleksoHoldsFleks(text: string)
    ensures SaysFlexo(text) <==> Flexo(text)
  {
    if Contains(text, "flekso") {
      var before, after := ContainsElim(text, "flekso");
      assert "flekso" == "fleks" + "o";
      ContainsIntro(text, before, "fleks", "o" + after);
    }
  }

  lemma ColourTexts()
    ensures "9" + " ta rangli" == "9 ta rangli" && "8" + " ta rangli" == "8 ta rangli"
    ensures "7" + " ta rangli" == "7 ta rangli"
    ensures "9" + " rangli" == "9 rangli" && "8" + " rangli" == "8 rangli" && "7" + " rangli" == "7 rangli"
  {
  }

  lemma TitleMarkerIs(low: string)
    ensures Marks(TitleMarker(low), low)
  {
    FleksoHoldsFleks(low);
    ColourTexts();
  }

  function AssignedTitle(node: Node): seq<string> {
    if node.kind == Apparatus && Trim(node.assignedTitle) != "" then [Trim(node.assignedTitle)] else []
  }

  function OwnTitle(node: Node): seq<string> {
    if node.kind == Apparatus then [Trim(node.title)] else []
  }

  lemma TitlesCons(head: Node, rest: seq<Node>)
    ensures AssignedTitles([head] + rest) == AssignedTitles(rest) + AssignedTitle(head)
    ensures PlainTitles([head] + rest) == OwnTitle(head) + PlainTitles(rest)
  {
    assert ([head] + rest)[1..] == rest;
  }

  lemma TitlesStep(head: Node, rest: seq<Node>, node: Node)
    requires AssignedTitles(rest + [node]) == AssignedTitle(node) + AssignedTitles(rest)
    requires PlainTitles(rest + [node]) == PlainTitles(rest) + OwnTitle(node)
    ensures AssignedTitles([head] + (rest + [node])) == AssignedTitle(node) + AssignedTitles([head] + rest)
    ensures PlainTitles([head] + (rest + [node])) == PlainTitles([head] + rest) + OwnTitle(node)
  {
    hide *;
    TitlesCons(head, rest + [node]);
    TitlesCons(head, rest);
    Associate(AssignedTitle(node), AssignedTitles(rest), AssignedTitle(head));
    Associate(OwnTitle(head), PlainTitles(rest), OwnTitle(node));
  }

  /** One more node, as the loop over the nodes meets it: an assigned title goes in front of all, an own
      one behind. */
  lemma {:induction false} TitlesNext(nodes: seq<Node>, node: Node)
    ensures AssignedTitles(nodes + [node])
         == (if node.kind == Apparatus && Trim(node.assignedTitle) != "" then [Trim(node.assignedTitle)] else [])
            + AssignedTitles(nodes)
    ensures PlainTitles(nodes + [node])
         == PlainTitles(nodes) + if node.kind == Apparatus then [Trim(node.title)] else []
  {
    if nodes == [] {
      TitlesCons(node, []);
      assert [] + [node] == [node] && [node] + [] == [node];
    } else {
      TitlesNext(nodes[1..], node);
      TitlesStep(nodes[0], nodes[1..], node);
      HeadApart(nodes, [node]);
    }
  }

  /** The marker of the first title that has one; nothing when none has. */
  ghost predicate FirstMark(titles: seq<string>, marker: string) {
    || (marker == "" && forall i | 0 <= i < |titles| :: Marks("", Lower(titles[i])))
    || (exists i | 0 <= i < |titles| ::
          && marker != "" && Marks(marker, Lower(titles[i]))
          && forall j | 0 <= j < i :: Marks("", Lower(titles[j])))
  }

  lemma {:induction false} FirstMarkerIs(titles: seq<string>)
    ensures FirstMark(titles, FirstMarker(titles))
  {
    if titles != [] {
      var rest, marker := titles[1..], FirstMarker(titles);
      TitleMarkerIs(Lower(titles[0]));
      if TitleMarker(Lower(titles[0])) == [] {
        FirstMarkerIs(rest);
        if marker == "" {
          forall i | 0 <= i < |titles| ensures Marks("", Lower(titles[i])) {
            assert i == 0 || titles[i] == rest[i - 1];
          }
        } else {
          var i :| && 0 <= i < |rest| && Marks(marker, Lower(rest[i]))
                   && forall j | 0 <= j < i :: Marks("", Lower(rest[j]));
          forall j | 0 <= j < i + 1 ensures Marks("", Lower(titles[j])) {
            assert j == 0 || titles[j] == rest[j - 1];
          }
          assert Marks(marker, Lower(titles[i + 1]));
        }
      } else {
        assert Marks(marker, Lower(titles[0]));
      }
    }
  }

  /** The press marker: flexo by the product's name, else by the first title that says something, the
      assigned ones before the apparatuses' own. */
  ghost predicate PressMark(marker: string, plan: Definition, template: Template) {
    if Flexo(Lower(template.product + " " + template.name)) then marker == "F"
    else FirstMark(AssignedTitles(plan.nodes) + PlainTitles(plan.nodes), marker)
  }

  lemma PressMarkerIs(plan: Definition, template: Template)
    ensures PressMark(PressMarker(plan, template), plan, template)
  {
    FleksoHoldsFleks(Lower(template.product + " " + template.name));
    FirstMarkerIs(AssignedTitles(plan.nodes) + PlainTitles(plan.nodes));
  }

  // ----------------------------------------------------------------- the row's cells

  /** Two digits of a day, month, hour or minute. */
  predicate TwoDigits(text: string, n: nat) {
    |text| == 2 && text == [DigitChar(n / 10 % 10), DigitChar(n % 10)]
  }

  lemma PaddedTwo(n: nat)
    requires n < 100
    ensures TwoDigits(ZeroPadded(n, 2), n)
  {
    assert Pow10(2) == 100;
    assert Padded(n, 2) == Padded(n / 10, 1) + [DigitChar(n % 10)];
    assert Padded(n / 10, 1) == Padded(n / 10 / 10, 0) + [DigitChar(n / 10 % 10)];
  }

  predicate OnTheClock(now: Stamp) {
    now.day < 100 && now.month < 100 && now.hour < 100 && now.minute < 100
  }

  /** Date and time, two digits each, with a slash and a colon between. */
  ghost predicate Dated(date: string, time: string, now: Stamp) {
    exists d, m, h, n ::
      && TwoDigits(d, now.day) && TwoDigits(m, now.month) && TwoDigits(h, now.hour) && TwoDigits(n, now.minute)
      && date == d + "/" + m && time == h + ":" + n
  }

  lemma DatedIs(now: Stamp)
    requires OnTheClock(now)
    ensures Dated(DateText(now), TimeText(now), now)
  {
    PaddedTwo(now.day);
    PaddedTwo(now.month);
    PaddedTwo(now.hour);
    PaddedTwo(now.minute);
  }

  /** The request an order's template makes: its numbers, and its layers without the white space around
      them. */
  predicate Asks(request: F.Request, template: Template) {
    && request.kg == Some(template.kg) && request.widthMm == Some(template.widthMm)
    && request.wastePercent == Some(template.wastePercent)
    && request.first == F.Layer(Trim(template.first.material), Trim(template.first.micron))
    && request.second == F.Layer(Trim(template.second.material), Trim(template.second.micron))
    && request.third == F.Layer(Trim(template.third.material), Trim(template.third.micron))
  }

  /** The columns from the product's name on. */
  ghost predicate OrderColumns(row: Row, template: Template, plan: Definition, length: real) {
    && |row| == 16
    && row[4].Text? && FirstText([template.product, template.name, plan.title], row[4].text)
    && row[5] == Number(template.kg)
    && row[6] == Text(Trim(template.first.material)) && row[7] == Text(Trim(template.second.material))
    && row[8] == Text(Trim(template.third.material)) && row[9] == Number(template.widthMm)
    && row[10] == Text(Trim(template.first.micron)) && row[11] == Text(Trim(template.second.micron))
    && row[12] == Text(Trim(template.third.micron)) && row[13] == Number(length)
    && row[14] == (match template.rollCount case Some(n) => Number(n) case None => Text(""))
    && row[15] == Number(F.RubberSize(template.widthMm) as real)
  }

  /** The columns up to the code. */
  ghost predicate FrontColumns(row: Row, template: Template, plan: Definition, now: Stamp) {
    && |row| == 16 && row[0].Text? && PressMark(row[0].text, plan, template)
    && row[1].Text? && row[2].Text? && Dated(row[1].text, row[2].text, now)
    && row[3] == Text("/" + Trim(plan.orderNumber))
  }

  lemma OrderColumnsAre(front: Row, plan: Definition, template: Template, length: real)
    requires |front| == 4
    ensures OrderColumns(front + OrderCells(plan, template, length), template, plan, length)
  {
    hide F.RubberSize, Trim;
    FirstNonEmptyIs([template.product, template.name, plan.title]);
    var cells := OrderCells(plan, template, length);
    assert |cells| == 12;
    forall k | 0 <= k < 12 ensures (front + cells)[4 + k] == cells[k] {}
  }

  lemma SlashInFront(plan: Definition, template: Template)
    requires IsSheetOrder(plan)
    ensures OrderCode(plan, template) == "/" + Trim(plan.orderNumber)
  {
    OrderNumberOf(plan, template);
    assert Trim(plan.orderNumber) != [] by { assert ByteLen(Trim(plan.orderNumber)) == 4; }
    assert IsDigit(Trim(plan.orderNumber)[0]);
  }

  lemma RowColumns(plan: Definition, template: Template, length: real, now: Stamp)
    requires IsSheetOrder(plan) && OnTheClock(now)
    ensures FrontColumns(RowCells(plan, template, length, now), template, plan, now)
    ensures OrderColumns(RowCells(plan, template, length, now), template, plan, length)
  {
    PressMarkerIs(plan, template);
    DatedIs(now);
    SlashInFront(plan, template);
    var front :=
      [Text(PressMarker(plan, template)), Text(DateText(now)), Text(TimeText(now)), Text(OrderCode(plan, template))];
    FrontCells(front, OrderCells(plan, template, length), plan, template, now);
    OrderColumnsAre(front, plan, template, length);
  }

  lemma FrontCells(front: Row, rest: Row, plan: Definition, template: Template, now: Stamp)
    requires |front| == 4 && |rest| == 12
    requires front[0].Text? && PressMark(front[0].text, plan, template)
    requires front[1].Text? && front[2].Text? && Dated(front[1].text, front[2].text, now)
    requires front[3] == Text("/" + Trim(plan.orderNumber))
    ensures FrontColumns(front + rest, template, plan, now)
  {
    hide PressMark, Dated;
  }

  /** An order gets a row exactly when its map is an order of the sheet (a map id with the prefix and an
      order number of four digits), its weight is positive and its length can be calculated; and then
      the sixteen cells are these. */
  lemma OrderRowIs(plan: Definition, template: Template, now: Stamp, request: F.Request)
    requires OnTheClock(now) && Asks(request, template)
    ensures OrderSheetRow(plan, template, now).Some?
       <==> && "zakaz-" <= Trim(plan.id) && FourDigits(Trim(plan.orderNumber)) && template.kg > 0.0
            && F.Calculate(request).Ok? && F.Calculate(request).value != []
    ensures var row := OrderSheetRow(plan, template, now);
            row.Some? ==>
              && FrontColumns(row.value, template, plan, now)
              && OrderColumns(row.value, template, plan, F.Calculate(request).value[0].roundedLength)
  {
    hide F.Calculate;
    FourDigitsIs(Trim(plan.orderNumber));
    assert request == CalculateRequest(template);
    if IsSheetOrder(plan) && template.kg > 0.0 && F.Calculate(request).Ok? && F.Calculate(request).value != [] {
      RowColumns(plan, template, F.Calculate(request).value[0].roundedLength, now);
    }
  }

  predicate FourDigits(number: string) {
    |number| == 4 && forall c | c in number :: '0' <= c <= '9'
  }

  lemma FourDigitsIs(number: string)
    ensures ByteLen(number) == 4 && AllDigits(number) <==> FourDigits(number)
  {
    if AllDigits(number) {
      forall c | c in number ensures IsAscii(c) && '0' <= c <= '9' { assert IsDigit(c); }
    }
    if FourDigits(number) {
      forall c | c in number ensures IsAscii(c) && IsDigit(c) {}
    }
  }

  lemma KnownRequest(template: Template, request: F.Request)
    requires template.kg == 600.0 && template.widthMm == 735.0 && template.wastePercent == 5.0
    requires template.first == F.Layer("pet", "12") && template.second == F.Layer("pe oq", "55")
    requires template.third == F.Layer("", "")
    requires request == F.Request(Some(600.0), Some(735.0), Some(5.0), template.first, template.second, template.third)
    ensures Asks(request, template) && F.RubberSize(template.widthMm) == 750
  {
    TrimOfTight("pet", IsWhite);
    TrimOfTight("12", IsWhite);
    TrimOfTight("pe oq", IsWhite);
    TrimOfTight("55", IsWhite);
    TrimOfTight("", IsWhite);
  }

  lemma KnownNumber(plan: Definition)
    requires plan.id == "zakaz-7775" && plan.orderNumber == "7775"
    ensures "zakaz-" <= Trim(plan.id) && Trim(plan.orderNumber) == "7775" && FourDigits("7775")
  {
    TrimOfTight("zakaz-7775", IsWhite);
    TrimOfTight("7775", IsWhite);
  }

  lemma ColumnsSay(row: Row, plan: Definition, template: Template, now: Stamp, length: real, number: string)
    requires FrontColumns(row, template, plan, now) && OrderColumns(row, template, plan, length)
    requires Trim(plan.orderNumber) == number
    ensures |row| == 16 && row[3] == Text("/" + number) && row[13] == Number(length)
    ensures row[15] == Number(F.RubberSize(template.widthMm) as real)
  {
  }

  /** The row of `order_sheet_row_matches_legacy_excel_columns`: its code, metres and rubber. */
  lemma KnownRow(plan: Definition, template: Template, now: Stamp)
    requires plan.id == "zakaz-7775" && plan.orderNumber == "7775" && OnTheClock(now)
    requires template.kg == 600.0 && template.widthMm == 735.0 && template.wastePercent == 5.0
    requires template.first == F.Layer("pet", "12") && template.second == F.Layer("pe oq", "55")
    requires template.third == F.Layer("", "")
    ensures var row := OrderSheetRow(plan, template, now);
            && row.Some? && |row.value| == 16 && row.value[3] == Text("/" + "7775")
            && row.value[13] == Number(11500.0) && row.value[15] == Number(750.0)
  {
    hide *;
    var request := F.Request(Some(600.0), Some(735.0), Some(5.0), template.first, template.second, template.third);
    KnownRequest(template, request);
    KnownNumber(plan);
    K.SheetOrderLength(request);
    OrderRowIs(plan, template, now, request);
    var row := OrderSheetRow(plan, template, now);
    ColumnsSay(row.value, plan, template, now, 11500.0, "7775");
  }

  // ------------------------------------------------------------------------- header

  /** A sheet has its header when the first row says "pechat", "sana" and, in the fourth column, "kod";
      the header the sink writes does. */
  lemma HeaderIs(rows: Sheet)
    ensures HasHeader(rows) <==>
              rows != [] && SaysAt(rows[0], 0, "pechat") && SaysAt(rows[0], 1, "sana") && SaysAt(rows[0], 3, "kod")
    ensures HasHeader([SheetHeaders()] + rows) && |SheetHeaders()| == 16
    ensures SheetHeaders()[2] == Text("vaqt") && SheetHeaders()[6] == Text("1 qavat")
    ensures SheetHeaders()[7] == Text("2 qavat") && SheetHeaders()[8] == Text("3 qavat")
    ensures SheetHeaders()[10] == Text("1 qavat mikron") && SheetHeaders()[11] == Text("2 qavat mikron")
    ensures SheetHeaders()[12] == Text("3 qavat mikron")
    ensures SheetHeaders()[4] == Text("zakaz nomi") && SheetHeaders()[5] == Text("zakaz kg")
    ensures SheetHeaders()[9] == Text("material razmer") && SheetHeaders()[13] == Text("metr")
    ensures SheetHeaders()[14] == Text("qolib soni") && SheetHeaders()[15] == Text("rezina razmer")
  {
    SheetHeadersAreAHeader();
  }
}
