/** Export of a production map as a Work Order and import back
    (src/erpnext/production_order.rs). */
module WorkOrders {
  import opened Text
  import opened Decimals
  import opened Orders
  import opened ProductionGraph
  import F = Formula
  import S = Sequences

  /** The template fields that reach a Work Order. */
  datatype Template = Template(
    code: string, name: string, orderNumber: string, sourceMapId: string, itemCode: string, product: string,
    widthMm: real, wastePercent: real, rollCount: Option<real>, kg: real,
    first: F.Layer, second: F.Layer, third: F.Layer)

  datatype OperationPayload = OperationPayload(
    operation: string, workstation: string, description: string, sequenceId: int, batchSize: real)

  datatype WorkOrderPayload = WorkOrderPayload(
    productionItem: string, qty: real, description: string, operations: seq<OperationPayload>)

  datatype OperationRow = OperationRow(workstation: string, description: string, sequenceId: int, batchSize: real)

  datatype Document = Document(name: string, productionItem: string, description: string, operations: seq<OperationRow>)

  // --------------------------------------------------------------------- export

  function FirstNonEmpty(values: seq<string>): string {
    if values == [] then ""
    else if Trim(values[0]) != [] then Trim(values[0])
    else FirstNonEmpty(values[1..])
  }

  function WorkstationName(node: Node): string {
    if Trim(node.assignedTitle) == [] then Trim(node.title) else Trim(node.assignedTitle)
  }

  function OperationName(title: string): string {
    var low := Lower(title);
    if Contains(low, "laminat") then "Laminatsiya"
    else if Contains(low, "flex") || Contains(low, "fleks") || Contains(low, "flekso") then "Flexo"
    else if Contains(low, "pechat") then "Pechat"
    else if Contains(low, "paket") then "Paket"
    else "Ishlov"
  }

  function OrElse(a: Option<real>, b: Option<real>): real {
    if a.Some? then a.value else if b.Some? then b.value else 0.0
  }

  function OrderNumber(plan: Definition, template: Template): string {
    FirstNonEmpty([plan.orderNumber, plan.code, template.orderNumber, template.code])
  }

  function ProductName(plan: Definition, template: Template): string {
    FirstNonEmpty([template.product, template.name, plan.title])
  }

  function ItemCode(plan: Definition, template: Template): string {
    FirstNonEmpty([template.itemCode, plan.productCode])
  }

  function RollCount(plan: Definition, template: Template): real {
    OrElse(template.rollCount, plan.rollCount)
  }

  function WidthMm(plan: Definition, template: Template): real {
    if template.widthMm > 0.0 then template.widthMm else OrElse(plan.widthMm, None)
  }

  function TrimLayer(layer: F.Layer): F.Layer {
    F.Layer(Trim(layer.material), Trim(layer.micron))
  }

  /** `rubber_size_mm(..).unwrap_or_default()`. */
  function RubberSizeMm(template: Template): int {
    var request := F.Request(Some(template.kg), Some(template.widthMm), Some(template.wastePercent),
                             TrimLayer(template.first), TrimLayer(template.second), TrimLayer(template.third));
    if F.Calculate(request).Ok? then F.RubberSize(template.widthMm) else 0
  }

  function LayerLine(rank: string, layer: F.Layer): string {
    rank + " qavat: " + Trim(layer.material) + " " + Trim(layer.micron)
  }

  function ThirdLine(template: Template): seq<string> {
    if Trim(template.third.material) != [] || Trim(template.third.micron) != []
    then [LayerLine("3", template.third)] else []
  }

  /** The lines after the material size. */
  function DetailLines(plan: Definition, template: Template, rubberSize: int): seq<string> {
    [ "Rezina razmer: " + IntText(rubberSize) + " mm",
      "Qolib soni: " + NumberText(RollCount(plan, template)),
      LayerLine("1", template.first),
      LayerLine("2", template.second) ]
    + ThirdLine(template)
    + ["RS map id: " + Trim(plan.id)]
  }

  function OperationDescription(plan: Definition, template: Template, orderNumber: string, rubberSize: int): string {
    Join([ "Zakaz: /" + Trim(orderNumber),
           "Material razmer: " + NumberText(WidthMm(plan, template)) + " mm" ]
         + DetailLines(plan, template, rubberSize), "\n")
  }

  function HeaderDescription(plan: Definition, template: Template): string {
    Join([ "Zakaz: /" + OrderNumber(plan, template),
           "Mahsulot: " + ProductName(plan, template),
           "RS map id: " + Trim(plan.id) ], "\n")
  }

  function OperationFor(plan: Definition, template: Template, node: Node, index: nat): OperationPayload {
    OperationPayload(
      OperationName(node.title),
      WorkstationName(node),
      OperationDescription(plan, template, OrderNumber(plan, template), RubberSizeMm(template)),
      index + 1,
      RollCount(plan, template))
  }

  /** `build_work_order_payload` over the apparatus nodes in flow order. */
  function PayloadFor(plan: Definition, template: Template, nodes: seq<Node>): WorkOrderPayload {
    WorkOrderPayload(
      ItemCode(plan, template),
      template.kg,
      HeaderDescription(plan, template),
      seq(|nodes|, i requires 0 <= i < |nodes| => OperationFor(plan, template, nodes[i], i)))
  }

  ghost function Export(plan: Definition, template: Template): WorkOrderPayload {
    PayloadFor(plan, template, FlowOrder(plan))
  }

  // ------------------------------------------------------- what an exported order says

  /** The first of the texts that is not blank, trimmed; nothing when all are blank. */
  ghost predicate FirstText(values: seq<string>, r: string) {
    || (r == "" && forall i | 0 <= i < |values| :: Trim(values[i]) == "")
    || (exists i | 0 <= i < |values| ::
          r != "" && Trim(values[i]) == r && forall j | 0 <= j < i :: Trim(values[j]) == "")
  }

  lemma {:induction false} FirstNonEmptyIs(values: seq<string>)
    ensures FirstText(values, FirstNonEmpty(values))
  {
    if values != [] && Trim(values[0]) == [] {
      var rest := values[1..];
      FirstNonEmptyIs(rest);
      var r := FirstNonEmpty(rest);
      if r == "" {
        forall i | 0 <= i < |values| ensures Trim(values[i]) == "" { assert i == 0 || values[i] == rest[i - 1]; }
      } else {
        var i :| 0 <= i < |rest| && Trim(rest[i]) == r && forall j | 0 <= j < i :: Trim(rest[j]) == "";
        forall j | 0 <= j < i + 1 ensures Trim(values[j]) == "" { assert j == 0 || values[j] == rest[j - 1]; }
        assert Trim(values[i + 1]) == r;
      }
    }
  }

  predicate Laminates(low: string) {
    Contains(low, "laminat")
  }

  predicate Flexes(low: string) {
    Contains(low, "flex") || Contains(low, "fleks")
  }

  /** The operation an apparatus' title stands for: the first of the words that it holds, in any case. */
  ghost predicate Named(operation: string, title: string) {
    var low := Lower(title);
    && (operation == "Laminatsiya" <==> Laminates(low))
    && (operation == "Flexo" <==> !Laminates(low) && Flexes(low))
    && (operation == "Pechat" <==> !Laminates(low) && !Flexes(low) && Contains(low, "pechat"))
    && (operation == "Paket" <==>
          !Laminates(low) && !Flexes(low) && !Contains(low, "pechat") && Contains(low, "paket"))
    && (operation == "Ishlov" <==>
          !Laminates(low) && !Flexes(low) && !Contains(low, "pechat") && !Contains(low, "paket"))
  }

  lemma OperationNameIs(title: string)
    ensures Named(OperationName(title), title)
  {
    var low := Lower(title);
    if Contains(low, "flekso") {
      var before, after := ContainsElim(low, "flekso");
      assert "flekso" == "fleks" + "o";
      ContainsIntro(low, before, "fleks", "o" + after);
    }
    NamesApart();
  }

  lemma NamesApart()
    ensures "Laminatsiya"[0] == 'L' && "Flexo"[0] == 'F' && "Ishlov"[0] == 'I'
    ensures "Pechat"[0] == 'P' && "Paket"[0] == 'P' && "Pechat"[1] != "Paket"[1]
  {
  }

  /** The template's roll count, or the map's, or none. */
  predicate Rolls(plan: Definition, template: Template, count: real) {
    count == match template.rollCount
             case Some(n) => n
             case None => match plan.rollCount case Some(n) => n case None => 0.0
  }

  /** The template's width when it is positive, else the map's, or none. */
  predicate Width(plan: Definition, template: Template, width: real) {
    width == if template.widthMm > 0.0 then template.widthMm else match plan.widthMm case Some(w) => w case None => 0.0
  }

  /** The text of a header: order number, product and map id. */
  ghost predicate Heads(description: string, plan: Definition, template: Template) {
    exists order, product ::
      && FirstText([plan.orderNumber, plan.code, template.orderNumber, template.code], order)
      && FirstText([template.product, template.name, plan.title], product)
      && description == "Zakaz: /" + order + "\nMahsulot: " + product + "\nRS map id: " + Trim(plan.id)
  }

  /** The text of an operation: order number, width, rubber, rolls, two or three layers and map id. */
  ghost predicate Describes(description: string, plan: Definition, template: Template, rubber: int) {
    exists order, width, rolls ::
      && FirstText([plan.orderNumber, plan.code, template.orderNumber, template.code], order)
      && Width(plan, template, width) && Rolls(plan, template, rolls)
      && description == "Zakaz: /" + order + "\nMaterial razmer: " + NumberText(width) + " mm\nRezina razmer: "
                        + IntText(rubber) + " mm\nQolib soni: " + NumberText(rolls) + LayerTexts(template)
                        + "\nRS map id: " + Trim(plan.id)
  }

  /** The layers, trimmed; a third one only when it names a material or a micron. */
  function LayerTexts(template: Template): string {
    "\n1 qavat: " + Trim(template.first.material) + " " + Trim(template.first.micron)
    + "\n2 qavat: " + Trim(template.second.material) + " " + Trim(template.second.micron)
    + if Trim(template.third.material) == "" && Trim(template.third.micron) == "" then ""
      else "\n3 qavat: " + Trim(template.third.material) + " " + Trim(template.third.micron)
  }

  lemma HeaderIs(plan: Definition, template: Template)
    ensures Heads(HeaderDescription(plan, template), plan, template)
  {
    var order, product := OrderNumber(plan, template), ProductName(plan, template);
    FirstNonEmptyIs([plan.orderNumber, plan.code, template.orderNumber, template.code]);
    FirstNonEmptyIs([template.product, template.name, plan.title]);
    JoinedThree("Zakaz: /", order, "Mahsulot: ", product, "RS map id: ", Trim(plan.id));
    assert "\n" + "Mahsulot: " == "\nMahsulot: " && "\n" + "RS map id: " == "\nRS map id: ";
  }

  lemma JoinedThree(a: string, x: string, b: string, y: string, c: string, z: string)
    ensures Join([a + x, b + y, c + z], "\n") == a + x + ("\n" + b) + y + ("\n" + c) + z
  {
    assert [a + x, b + y, c + z][1..] == [b + y, c + z] && [b + y, c + z][1..] == [c + z];
    assert Join([c + z], "\n") == c + z;
    assert Join([b + y, c + z], "\n") == (b + y) + "\n" + (c + z);
    assert Join([a + x, b + y, c + z], "\n") == (a + x) + "\n" + ((b + y) + "\n" + (c + z));
  }

  /** The operation of a node at its place in the flow. */
  ghost predicate IsOperationOf(op: OperationPayload, plan: Definition, template: Template, node: Node, place: nat) {
    && Named(op.operation, node.title) && FirstText([node.assignedTitle, node.title], op.workstation)
    && Describes(op.description, plan, template, RubberSizeMm(template))
    && op.sequenceId == place + 1 && Rolls(plan, template, op.batchSize)
  }

  lemma WorkstationIs(node: Node)
    ensures FirstText([node.assignedTitle, node.title], WorkstationName(node))
  {
    var values := [node.assignedTitle, node.title];
    assert values[0] == node.assignedTitle && values[1] == node.title;
    if WorkstationName(node) != "" {
      var i := if Trim(node.assignedTitle) == "" then 1 else 0;
      assert Trim(values[i]) == WorkstationName(node) && forall j | 0 <= j < i :: Trim(values[j]) == "";
    }
  }

  lemma JoinTwo(a: string, b: string)
    ensures Join([a, b], "\n") == a + "\n" + b
  {
    assert [a, b][1..] == [b];
  }

  lemma FourInFront(a: string, b: string, c: string, d: string, rest: seq<string>)
    ensures [a, b, c, d] + rest == [a] + ([b] + ([c] + ([d] + rest)))
  {
  }

  lemma JoinFour(a: string, b: string, c: string, d: string, rest: seq<string>)
    requires rest != []
    ensures Join([a, b, c, d] + rest, "\n") == a + "\n" + (b + "\n" + (c + "\n" + (d + "\n" + Join(rest, "\n"))))
  {
    hide *;
    FourInFront(a, b, c, d, rest);
    JoinCons(d, rest, "\n");
    JoinCons(c, [d] + rest, "\n");
    JoinCons(b, [c] + ([d] + rest), "\n");
    JoinCons(a, [b] + ([c] + ([d] + rest)), "\n");
  }

  lemma JoinLayers(e: string, f: string, third: seq<string>, g: string)
    requires |third| <= 1
    ensures Join([e, f] + third + [g], "\n")
         == e + "\n" + f + (if third == [] then "" else "\n" + third[0]) + "\n" + g
  {
    hide *;
    if third == [] {
      assert [e, f] + third + [g] == [e] + [f, g];
      JoinCons(e, [f, g], "\n");
      JoinTwo(f, g);
      assert e + "\n" + (f + "\n" + g) == e + "\n" + f + "" + "\n" + g;
    } else {
      var h := third[0];
      assert [e, f] + third + [g] == [e] + ([f] + [h, g]);
      JoinCons(e, [f] + [h, g], "\n");
      JoinCons(f, [h, g], "\n");
      JoinTwo(h, g);
      assert e + "\n" + (f + "\n" + (h + "\n" + g)) == e + "\n" + f + ("\n" + h) + "\n" + g;
    }
  }

  lemma JoinRegrouped(n: string, a: string, b: string, c: string, d: string, e: string, f: string, h: string, g: string)
    ensures a + n + (b + n + (c + n + (d + n + (e + n + f + h + n + g))))
         == a + (n + b) + (n + c) + (n + d) + ((n + e) + (n + f) + h) + (n + g)
  {
  }

  /** Four lines, two layers, perhaps a third one, and the last line. */
  lemma JoinLines(a: string, b: string, c: string, d: string, e: string, f: string, third: seq<string>, g: string)
    requires |third| <= 1
    ensures Join([a, b] + ([c, d, e, f] + third + [g]), "\n")
         == a + ("\n" + b) + ("\n" + c) + ("\n" + d) + (("\n" + e) + ("\n" + f)
            + (if third == [] then "" else "\n" + third[0])) + ("\n" + g)
  {
    hide *;
    assert [a, b] + ([c, d, e, f] + third + [g]) == [a, b, c, d] + ([e, f] + third + [g]);
    JoinFour(a, b, c, d, [e, f] + third + [g]);
    JoinLayers(e, f, third, g);
    JoinRegrouped("\n", a, b, c, d, e, f, if third == [] then "" else "\n" + third[0], g);
  }

  lemma LinePieces()
    ensures "\n" + "Material razmer: " == "\nMaterial razmer: " && "\n" + "Qolib soni: " == "\nQolib soni: "
    ensures "\n" + "RS map id: " == "\nRS map id: "
  {
  }

  lemma RubberPiece()
    ensures " mm" + "\n" + "Rezina razmer: " == " mm\nRezina razmer: "
    ensures " mm" + "\nQolib soni: " == " mm\nQolib soni: "
  {
  }

  lemma LayerPieces()
    ensures "\n" + ("1" + " qavat: ") == "\n1 qavat: " && "\n" + ("2" + " qavat: ") == "\n2 qavat: "
    ensures "\n" + ("3" + " qavat: ") == "\n3 qavat: "
  {
  }

  lemma LinesRegrouped(z: string, order: string, m: string, width: string, mm: string, n: string, r: string,
                       rubber: string, q: string, rolls: string, layers: string, id: string, mapId: string)
    ensures (z + order) + (n + (m + width + mm)) + (n + (r + rubber + mm)) + (n + (q + rolls)) + layers
            + (n + (id + mapId))
         == z + order + (n + m) + width + (mm + n + r) + rubber + (mm + (n + q)) + rolls + layers + (n + id) + mapId
  {
  }

  lemma LayerRegrouped(n: string, rank: string, qavat: string, material: string, micron: string)
    ensures n + (rank + qavat + material + " " + micron) == (n + (rank + qavat)) + material + " " + micron
  {
  }

  lemma LayersAre(template: Template)
    ensures ("\n" + LayerLine("1", template.first)) + ("\n" + LayerLine("2", template.second))
            + (if ThirdLine(template) == [] then "" else "\n" + ThirdLine(template)[0])
         == LayerTexts(template)
  {
    LayerPieces();
    LayerRegrouped("\n", "1", " qavat: ", Trim(template.first.material), Trim(template.first.micron));
    LayerRegrouped("\n", "2", " qavat: ", Trim(template.second.material), Trim(template.second.micron));
    LayerRegrouped("\n", "3", " qavat: ", Trim(template.third.material), Trim(template.third.micron));
    var one := "\n1 qavat: " + Trim(template.first.material) + " " + Trim(template.first.micron);
    LayersRegrouped(one, "\n2 qavat: ", Trim(template.second.material), Trim(template.second.micron));
  }

  lemma LayersRegrouped(one: string, a: string, b: string, c: string)
    ensures one + (a + b + " " + c) == one + a + b + " " + c
  {
  }

  /** An operation's description is the text the predicate spells out. */
  lemma DescriptionIs(plan: Definition, template: Template, rubber: int)
    ensures Describes(OperationDescription(plan, template, OrderNumber(plan, template), rubber), plan, template, rubber)
  {
    var order, width, rolls := OrderNumber(plan, template), WidthMm(plan, template), RollCount(plan, template);
    FirstNonEmptyIs([plan.orderNumber, plan.code, template.orderNumber, template.code]);
    OrderIsTight(plan, template);
    JoinLines("Zakaz: /" + order, "Material razmer: " + NumberText(width) + " mm",
              "Rezina razmer: " + IntText(rubber) + " mm", "Qolib soni: " + NumberText(rolls),
              LayerLine("1", template.first), LayerLine("2", template.second), ThirdLine(template),
              "RS map id: " + Trim(plan.id));
    LayersAre(template);
    LinePieces();
    RubberPiece();
    LinesRegrouped("Zakaz: /", order, "Material razmer: ", NumberText(width), " mm", "\n", "Rezina razmer: ",
                   IntText(rubber), "Qolib soni: ", NumberText(rolls), LayerTexts(template), "RS map id: ",
                   Trim(plan.id));
    assert Width(plan, template, width) && Rolls(plan, template, rolls);
  }

  lemma OperationIs(plan: Definition, template: Template, node: Node, place: nat)
    ensures IsOperationOf(OperationFor(plan, template, node, place), plan, template, node, place)
  {
    OperationNameIs(node.title);
    WorkstationIs(node);
    DescriptionIs(plan, template, RubberSizeMm(template));
  }

  /** No rubber without a calculation; else the size of the template's width. */
  lemma RubberOfTemplate(template: Template)
    ensures template.kg <= 0.0 || template.widthMm <= 0.0 || template.wastePercent < 0.0 ==> RubberSizeMm(template) == 0
    ensures RubberSizeMm(template)
         == if F.Calculate(
                 F.Request(Some(template.kg), Some(template.widthMm), Some(template.wastePercent),
                           F.Layer(Trim(template.first.material), Trim(template.first.micron)),
                           F.Layer(Trim(template.second.material), Trim(template.second.micron)),
                           F.Layer(Trim(template.third.material), Trim(template.third.micron)))).Ok?
            then F.RubberSize(template.widthMm) else 0
  {
  }

  function OperationMaker(plan: Definition, template: Template): (Node, nat) -> OperationPayload {
    (node: Node, index: nat) => OperationFor(plan, template, node, index)
  }

  /** `iter().enumerate().map(make).collect()`. */
  method Enumerate<T, U>(items: seq<T>, make: (T, nat) -> U) returns (made: seq<U>)
    ensures |made| == |items| && forall i | 0 <= i < |items| :: made[i] == make(items[i], i)
  {
    made := [];
    for i := 0 to |items|
      invariant |made| == i && forall j | 0 <= j < i :: made[j] == make(items[j], j)
    {
      made := made + [make(items[i], i)];
    }
  }

  /** `build_work_order_payload`: one operation for each apparatus, numbered from one in flow order. */
  method BuildWorkOrderPayload(plan: Definition, template: Template) returns (payload: WorkOrderPayload)
    ensures FirstText([template.itemCode, plan.productCode], payload.productionItem) && payload.qty == template.kg
    ensures Heads(payload.description, plan, template)
    ensures |payload.operations| == |FlowOrder(plan)|
    ensures forall i | 0 <= i < |FlowOrder(plan)| ::
              IsOperationOf(payload.operations[i], plan, template, FlowOrder(plan)[i], i)
    ensures payload == Export(plan, template)
  {
    var nodes := ApparatusNodesInFlowOrder(plan);
    var operations := Enumerate(nodes, OperationMaker(plan, template));
    OperationsAre(plan, template, operations);
    HeaderIs(plan, template);
    FirstNonEmptyIs([template.itemCode, plan.productCode]);
    payload := WorkOrderPayload(ItemCode(plan, template), template.kg, HeaderDescription(plan, template), operations);
  }

  lemma OperationsAre(plan: Definition, template: Template, operations: seq<OperationPayload>)
    requires |operations| == |FlowOrder(plan)|
    requires forall i | 0 <= i < |operations| :: operations[i] == OperationMaker(plan, template)(FlowOrder(plan)[i], i)
    ensures operations == Export(plan, template).operations
    ensures forall i | 0 <= i < |operations| :: IsOperationOf(operations[i], plan, template, FlowOrder(plan)[i], i)
  {
    forall i | 0 <= i < |operations| ensures IsOperationOf(operations[i], plan, template, FlowOrder(plan)[i], i) {
      OperationIs(plan, template, FlowOrder(plan)[i], i);
    }
  }

  /** The export numbers the apparatuses so that none comes before a nearer one, and leaves none out. */
  lemma ExportFollowsFlow(plan: Definition, template: Template)
    ensures var ops, flow := Export(plan, template).operations, FlowOrder(plan);
            && |ops| == |flow| && multiset(flow) == multiset(ApparatusOf(plan.nodes))
            && (forall i | 0 <= i < |ops| :: IsOperationOf(ops[i], plan, template, flow[i], i))
            && (forall i, j | 0 <= i < |ops| && 0 <= j < |ops| && ops[i].sequenceId < ops[j].sequenceId ::
                  Depth(plan, flow[i].id) <= Depth(plan, flow[j].id))
  {
    FlowOrderIsSorted(plan);
    OperationsAre(plan, template, Export(plan, template).operations);
  }

  /** What the server keeps of an operation. */
  function RowOf(op: OperationPayload): OperationRow {
    OperationRow(op.workstation, op.description, op.sequenceId, op.batchSize)
  }

  function RowsOf(ops: seq<OperationPayload>): seq<OperationRow> {
    seq(|ops|, i requires 0 <= i < |ops| => RowOf(ops[i]))
  }

  // --------------------------------------------------------------------- import

  function ValueAfter(line: string, key: string): string
    requires key <= line
  {
    Trim(line[|key|..])
  }

  function FindValue(lines: seq<string>, key: string): Option<string> {
    if lines == [] then None
    else if key <= Trim(lines[0]) then Some(ValueAfter(Trim(lines[0]), key))
    else FindValue(lines[1..], key)
  }

  /** `description_value`: the first line that begins with the key. */
  function DescriptionValue(description: string, key: string): Option<string> {
    FindValue(Lines(description), key)
  }

  function FirstWord(s: string): Option<string> {
    var t := TrimStart(s, IsWhite);
    if t == [] then None else Some(t[..WordLength(t)])
  }

  function DescriptionNumber(description: string, key: string): Option<real> {
    match DescriptionValue(description, key)
    case None => None
    case Some(value) => match FirstWord(value) { case None => None case Some(word) => ParseFloat(word) }
  }

  predicate SequenceLe(a: OperationRow, b: OperationRow) {
    a.sequenceId < b.sequenceId || (a.sequenceId == b.sequenceId && StrLe(a.workstation, b.workstation))
  }

  function SequenceOrdering(): (OperationRow, OperationRow) -> bool {
    (a, b) => SequenceLe(a, b)
  }

  function WithWorkstation(rows: seq<OperationRow>): seq<OperationRow> {
    if rows == [] then []
    else (if Trim(rows[0].workstation) != [] then [rows[0]] else []) + WithWorkstation(rows[1..])
  }

  function FirstBatch(rows: seq<OperationRow>): Option<real> {
    if rows == [] then None
    else if rows[0].batchSize > 0.0 then Some(rows[0].batchSize)
    else FirstBatch(rows[1..])
  }

  function FirstWidth(rows: seq<OperationRow>): Option<real> {
    if rows == [] then None
    else
      var width := DescriptionNumber(rows[0].description, "Material razmer:");
      if width.Some? then width else FirstWidth(rows[1..])
  }

  function ApparatusId(k: nat): string {
    "apparatus-" + NatText(k)
  }

  function ApparatusNode(row: OperationRow, index: nat): Node {
    Node(ApparatusId(index + 1), NodeKind.Apparatus, Trim(row.workstation), "", 0.0, 240.0 + index as real * 120.0)
  }

  /** The ids of the chain: start, task, the apparatuses, end. */
  function ChainId(n: nat, k: nat): string
    requires k <= n + 2
  {
    if k == 0 then "start" else if k == 1 then "task" else if k < n + 2 then ApparatusId(k - 1) else "end"
  }

  function ChainNodes(rows: seq<OperationRow>, title: string): seq<Node> {
    [ Node("start", NodeKind.Start, "Start", "", 0.0, 0.0), Node("task", NodeKind.Task, title, "", 0.0, 120.0) ]
    + seq(|rows|, i requires 0 <= i < |rows| => ApparatusNode(rows[i], i))
    + [ Node("end", NodeKind.End, title, "", 0.0, 240.0 + |rows| as real * 120.0) ]
  }

  function ChainEdges(n: nat): seq<Edge> {
    seq(n + 2, k requires 0 <= k < n + 2 => Edge(ChainId(n, k), ChainId(n, k + 1)))
  }

  /** The nodes stand in one column, each 120 below the one before. */
  lemma ChainPlaces(rows: seq<OperationRow>, title: string, k: nat)
    requires k < |rows| + 3
    ensures |ChainNodes(rows, title)| == |rows| + 3
    ensures ChainNodes(rows, title)[k].x == 0.0 && ChainNodes(rows, title)[k].y == k as real * 120.0
  {
    var n := |rows|;
    if 2 <= k < n + 2 {
      assert ChainNodes(rows, title)[k] == ApparatusNode(rows[k - 2], k - 2);
      assert (k - 2) as real * 120.0 == k as real * 120.0 - 240.0;
    } else if k == n + 2 {
      assert n as real * 120.0 == k as real * 120.0 - 240.0;
    }
  }

  lemma ChainNodesNext(rows: seq<OperationRow>, title: string, i: nat)
    requires i < |rows|
    ensures ChainNodes(rows, title)[..i + 3] == ChainNodes(rows, title)[..i + 2] + [ApparatusNode(rows[i], i)]
  {
  }

  lemma ChainNodesEnds(rows: seq<OperationRow>, title: string)
    ensures ChainNodes(rows, title)[..2]
         == [ Node("start", NodeKind.Start, "Start", "", 0.0, 0.0), Node("task", NodeKind.Task, title, "", 0.0, 120.0) ]
    ensures ChainNodes(rows, title)
         == ChainNodes(rows, title)[..|rows| + 2]
            + [Node("end", NodeKind.End, title, "", 0.0, 240.0 + |rows| as real * 120.0)]
  {
  }

  lemma ChainEdgesNext(n: nat, i: nat)
    requires i < n
    ensures ChainEdges(n)[..i + 2] == ChainEdges(n)[..i + 1] + [Edge(ChainId(n, i + 1), ApparatusId(i + 1))]
  {
  }

  lemma ChainEdgesEnds(n: nat)
    ensures ChainEdges(n)[..1] == [Edge("start", "task")]
  {
  }

  lemma ChainEdgesLast(n: nat)
    ensures ChainEdges(n) == ChainEdges(n)[..n + 1] + [Edge(ChainId(n, n + 1), "end")]
  {
    var last := Edge(ChainId(n, n + 1), ChainId(n, n + 2));
    assert ChainEdges(n)[n + 1] == last;
  }

  /** The loops of `work_order_document_to_map` that push nodes and edges. */
  method BuildChain(rows: seq<OperationRow>, title: string) returns (nodes: seq<Node>, edges: seq<Edge>)
    ensures nodes == ChainNodes(rows, title)
    ensures edges == ChainEdges(|rows|)
  {
    var n := |rows|;
    nodes := [ Node("start", NodeKind.Start, "Start", "", 0.0, 0.0),
               Node("task", NodeKind.Task, title, "", 0.0, 120.0) ];
    ChainNodesEnds(rows, title);
    ChainEdgesEnds(n);
    ChainEdgesLast(n);
    for i := 0 to n
      invariant nodes == ChainNodes(rows, title)[..i + 2]
    {
      ChainNodesNext(rows, title, i);
      nodes := nodes + [ApparatusNode(rows[i], i)];
    }
    nodes := nodes + [Node("end", NodeKind.End, title, "", 0.0, 240.0 + n as real * 120.0)];
    edges := [Edge("start", "task")];
    var previous := "task";
    for i := 0 to n
      invariant previous == ChainId(n, i + 1)
      invariant edges == ChainEdges(n)[..i + 1]
    {
      ChainEdgesNext(n, i);
      var next := ApparatusId(i + 1);
      edges := edges + [Edge(previous, next)];
      previous := next;
    }
    edges := edges + [Edge(previous, "end")];
  }

  function ImportedOrder(document: Document): string {
    var zakaz := DescriptionValue(document.description, "Zakaz:");
    Trim(TrimSlashes(if zakaz.Some? then zakaz.value else Trim(document.name)))
  }

  function ImportedTitle(document: Document): string {
    var mahsulot := DescriptionValue(document.description, "Mahsulot:");
    if mahsulot.Some? && Trim(mahsulot.value) != [] then mahsulot.value else Trim(document.productionItem)
  }

  function ImportedRows(document: Document): seq<OperationRow> {
    SortBy(WithWorkstation(document.operations), SequenceOrdering())
  }

  function MapFrom(id: string, item: string, title: string, order: string, rows: seq<OperationRow>): Definition {
    Definition(id, item, title, order, order, FirstBatch(rows), FirstWidth(rows),
               ChainNodes(rows, title), ChainEdges(|rows|))
  }

  /** `work_order_document_to_map`. */
  function Import(document: Document): Option<Definition> {
    match DescriptionValue(document.description, "RS map id:")
    case None => None
    case Some(mapId) =>
      if Trim(mapId) == [] then None
      else Some(MapFrom(Trim(mapId), Trim(document.productionItem), ImportedTitle(document), ImportedOrder(document),
                        ImportedRows(document)))
  }

  // ------------------------------------------------------- the rebuilt chain's flow

  lemma ApparatusIdsDiffer(j: nat, k: nat)
    requires ApparatusId(j) == ApparatusId(k)
    ensures j == k
  {
    assert ApparatusId(j)[|"apparatus-"|..] == NatText(j);
    assert ApparatusId(k)[|"apparatus-"|..] == NatText(k);
  }

  lemma ChainIdsDiffer(n: nat, j: nat, k: nat)
    requires j <= n + 2 && k <= n + 2 && ChainId(n, j) == ChainId(n, k)
    ensures j == k
  {
    assert ApparatusId(j)[0] == 'a' && ApparatusId(k)[0] == 'a';
    if 2 <= j < n + 2 && 2 <= k < n + 2 {
      ApparatusIdsDiffer(j - 1, k - 1);
    }
  }

  ghost predicate IsChain(plan: Definition, n: nat) {
    && StartIds(plan.nodes) == ["start"]
    && plan.edges == ChainEdges(n)
  }

  /** An edge that leaves the k-th id leads to the next. */
  lemma ChainLeads(n: nat, k: nat, from: string, to: string)
    requires k <= n + 2 && from == ChainId(n, k) && Edge(from, to) in ChainEdges(n)
    ensures k < n + 2 && to == ChainId(n, k + 1)
  {
    var j :| 0 <= j < n + 2 && ChainEdges(n)[j] == Edge(from, to);
    ChainIdsDiffer(n, j, k);
  }

  /** On a chain, a walk has no choice. */
  lemma {:induction false} WalkFollowsChain(plan: Definition, n: nat, w: seq<string>)
    requires IsChain(plan, n) && Walk(plan, w)
    ensures |w| <= n + 3 && w[|w| - 1] == ChainId(n, |w| - 1)
  {
    if |w| > 1 {
      var p := w[..|w| - 1];
      WalkPrefix(plan, w);
      WalkFollowsChain(plan, n, p);
      assert HasEdge(plan, w[|w| - 2], w[|w| - 1]);
      ChainLeads(n, |p| - 1, w[|w| - 2], w[|w| - 1]);
    }
  }

  function ChainWalk(n: nat, k: nat): seq<string>
    requires k <= n + 2
  {
    seq(k + 1, i requires 0 <= i < k + 1 => ChainId(n, i))
  }

  lemma ChainStep(n: nat, k: nat, i: nat)
    requires i < k <= n + 2
    ensures Edge(ChainWalk(n, k)[i], ChainWalk(n, k)[i + 1]) in ChainEdges(n)
  {
    assert ChainEdges(n)[i] in ChainEdges(n);
  }

  lemma ChainEnds(n: nat, k: nat)
    requires k <= n + 2
    ensures var w := ChainWalk(n, k); |w| == k + 1 && w[0] == "start" && w[k] == ChainId(n, k)
  {
  }

  lemma WalksOn(plan: Definition, w: seq<string>, start: string)
    requires w != [] && w[0] == start && StartIds(plan.nodes) == [start]
    requires forall i | 0 <= i < |w| - 1 :: Edge(w[i], w[i + 1]) in plan.edges
    ensures Walk(plan, w)
  {
    forall i | 0 <= i < |w| - 1 ensures HasEdge(plan, w[i], w[i + 1]) {
      assert Edge(w[i], w[i + 1]) in plan.edges;
    }
  }

  lemma ChainIsWalked(plan: Definition, n: nat, k: nat)
    requires IsChain(plan, n) && k <= n + 2
    ensures WalkTo(plan, ChainWalk(n, k), ChainId(n, k))
  {
    ChainEnds(n, k);
    forall i | 0 <= i < k ensures Edge(ChainWalk(n, k)[i], ChainWalk(n, k)[i + 1]) in plan.edges {
      ChainStep(n, k, i);
    }
    WalksOn(plan, ChainWalk(n, k), "start");
  }

  lemma ChainDepth(plan: Definition, n: nat, k: nat)
    requires IsChain(plan, n) && k <= n + 2
    ensures Depth(plan, ChainId(n, k)) == k
  {
    ChainIsWalked(plan, n, k);
    assert |ChainWalk(n, k)| == k + 1;
    forall v | WalkTo(plan, v, ChainId(n, k)) ensures k + 1 <= |v| {
      WalkFollowsChain(plan, n, v);
      ChainIdsDiffer(n, k, |v| - 1);
    }
    assert IsDepth(plan, ChainId(n, k), k);
    DepthIs(plan, ChainId(n, k), k);
  }

  lemma ApparatusOfConcat(a: seq<Node>, b: seq<Node>)
    ensures ApparatusOf(a + b) == ApparatusOf(a) + ApparatusOf(b)
  {
    if a == [] {
      assert a + b == b;
    } else {
      assert (a + b)[1..] == a[1..] + b;
      ApparatusOfConcat(a[1..], b);
    }
  }

  lemma AllApparatus(nodes: seq<Node>)
    requires forall i | 0 <= i < |nodes| :: nodes[i].kind == NodeKind.Apparatus
    ensures ApparatusOf(nodes) == nodes && StartIds(nodes) == []
  {
    if nodes != [] { AllApparatus(nodes[1..]); }
  }

  lemma {:induction false} StartIdsOfConcat(a: seq<Node>, b: seq<Node>)
    ensures StartIds(a + b) == StartIds(a) + StartIds(b)
  {
    if a == [] {
      assert a + b == b;
    } else {
      StartIdsOfConcat(a[1..], b);
      assert (a + b)[1..] == a[1..] + b;
      S.Associate(if a[0].kind == NodeKind.Start then [a[0].id] else [], StartIds(a[1..]), StartIds(b));
    }
  }

  function ApparatusNodes(rows: seq<OperationRow>): seq<Node> {
    seq(|rows|, i requires 0 <= i < |rows| => ApparatusNode(rows[i], i))
  }

  lemma HeadShape(head: seq<Node>)
    requires |head| == 2 && head[0].kind == NodeKind.Start && head[1].kind == NodeKind.Task
    ensures ApparatusOf(head) == [] && StartIds(head) == [head[0].id]
  {
    var rest := head[1..];
    assert rest == [head[1]];
    assert ApparatusOf(rest) == [] + ApparatusOf(rest[1..]) && StartIds(rest) == [] + StartIds(rest[1..]);
    assert rest[1..] == [];
  }

  lemma TailShape(tail: seq<Node>)
    requires |tail| == 1 && tail[0].kind == NodeKind.End
    ensures ApparatusOf(tail) == [] && StartIds(tail) == []
  {
    assert tail[1..] == [];
  }

  /** Two nodes in front, the first a Start, apparatus between, another node behind. */
  lemma ShapeOfAny(head: seq<Node>, middle: seq<Node>, tail: seq<Node>)
    requires |head| == 2 && head[0].kind == NodeKind.Start && head[1].kind == NodeKind.Task
    requires |tail| == 1 && tail[0].kind == NodeKind.End
    requires forall i | 0 <= i < |middle| :: middle[i].kind == NodeKind.Apparatus
    ensures ApparatusOf(head + middle + tail) == middle
    ensures StartIds(head + middle + tail) == [head[0].id]
  {
    HeadShape(head);
    TailShape(tail);
    AllApparatus(middle);
    ApparatusOfConcat(head + middle, tail);
    ApparatusOfConcat(head, middle);
    StartIdsOfConcat(head + middle, tail);
    StartIdsOfConcat(head, middle);
  }

  lemma ChainShape(rows: seq<OperationRow>, title: string)
    ensures ApparatusOf(ChainNodes(rows, title)) == ApparatusNodes(rows)
    ensures StartIds(ChainNodes(rows, title)) == ["start"]
  {
    ShapeOfAny([ Node("start", NodeKind.Start, "Start", "", 0.0, 0.0),
                 Node("task", NodeKind.Task, title, "", 0.0, 120.0) ],
               ApparatusNodes(rows),
               [ Node("end", NodeKind.End, title, "", 0.0, 240.0 + |rows| as real * 120.0) ]);
  }

  lemma NearerFirst(plan: Definition, rows: seq<OperationRow>, i: nat, j: nat)
    requires IsChain(plan, |rows|) && i < j < |rows|
    ensures FlowLe(plan, ApparatusNodes(rows)[i], ApparatusNodes(rows)[j])
  {
    var nodes := ApparatusNodes(rows);
    assert nodes[i].id == ChainId(|rows|, i + 2) && nodes[j].id == ChainId(|rows|, j + 2);
    ChainDepth(plan, |rows|, i + 2);
    ChainDepth(plan, |rows|, j + 2);
  }

  /** The rebuilt map lists its apparatuses in the order of the rows. */
  lemma ChainFlowOrder(plan: Definition, rows: seq<OperationRow>, title: string)
    requires plan.nodes == ChainNodes(rows, title) && plan.edges == ChainEdges(|rows|)
    ensures FlowOrder(plan) == ApparatusNodes(rows)
  {
    ChainShape(rows, title);
    var nodes := ApparatusNodes(rows);
    forall i: nat, j: nat | i < j < |nodes| ensures FlowOrdering(plan)(nodes[i], nodes[j]) {
      NearerFirst(plan, rows, i, j);
    }
    SortOfSorted(nodes, FlowOrdering(plan));
  }

  // ------------------------------------------------------------- the round trip

  predicate OneLine(s: string) {
    Free(s, '\n')
  }

  predicate TightKey(key: string) {
    key != [] && !IsWhite(key[0]) && !IsWhite(key[|key| - 1]) && Free(key, '\n')
  }

  /** The line is whole, begins with the key, and the rest is the value. */
  predicate Says(line: string, key: string, value: string) {
    WholeLine(line) && key <= Trim(line) && ValueAfter(Trim(line), key) == value
  }

  /** A "key value" line gives its value back. */
  lemma KeyAlone(key: string)
    requires TightKey(key)
    ensures Says(key + " ", key, "")
  {
    TrimIsMiddle([], key, " ", IsWhite);
    assert [] + key + " " == key + " ";
    assert key[|key|..] == [];
  }

  lemma KeyAndValue(key: string, value: string)
    requires TightKey(key) && Tight(value) && OneLine(value) && value != []
    ensures Says(key + " " + value, key, value)
  {
    var line := key + " " + value;
    assert line[0] == key[0] && line[|line| - 1] == value[|value| - 1];
    TrimOfTight(line, IsWhite);
    assert line[|key|..] == " " + value;
    TrimIsMiddle(" ", value, [], IsWhite);
    assert " " + value + [] == " " + value;
  }

  lemma KeyLine(key: string, value: string)
    requires TightKey(key) && Tight(value) && OneLine(value)
    ensures Says(key + " " + value, key, value)
  {
    if value == [] {
      KeyAlone(key);
      assert key + " " + value == key + " ";
    } else {
      KeyAndValue(key, value);
    }
  }

  lemma FindFirst(line: string, rest: string, key: string)
    requires WholeLine(line)
    ensures DescriptionValue(line + "\n" + rest, key)
         == if key <= Trim(line) then Some(ValueAfter(Trim(line), key)) else DescriptionValue(rest, key)
  {
    LinesCons(line, rest);
  }

  lemma FirstNonEmptyTight(values: seq<string>)
    ensures Tight(FirstNonEmpty(values))
    ensures FirstNonEmpty(values) == [] ==> forall i | 0 <= i < |values| :: Trim(values[i]) == []
  {
    if values != [] {
      TrimTwice(values[0]);
      FirstNonEmptyTight(values[1..]);
      if FirstNonEmpty(values) == [] {
        forall i | 0 <= i < |values| ensures Trim(values[i]) == [] { assert i == 0 || values[i] == values[1..][i - 1]; }
      }
    }
  }

  /** A key is looked up past a line that says something else. */
  lemma FindPast(line: string, rest: string, key: string, value: string, other: string)
    requires Says(line, key, value) && key != [] && other != [] && key[0] != other[0]
    ensures DescriptionValue(line + "\n" + rest, key) == Some(value)
    ensures DescriptionValue(line + "\n" + rest, other) == DescriptionValue(rest, other)
  {
    assert Trim(line)[0] == key[0];
    FindFirst(line, rest, key);
    FindFirst(line, rest, other);
  }

  lemma ZakazKey()
    ensures "Zakaz: /" == "Zakaz:" + " " + "/"
  {
  }

  lemma ZakazLine(order: string)
    requires Tight(order) && OneLine(order)
    ensures Says("Zakaz: /" + order, "Zakaz:", "/" + order)
  {
    KeyLine("Zakaz:", "/" + order);
    ZakazKey();
    S.Associate("Zakaz:" + " ", "/", order);
  }

  lemma MahsulotLine(product: string)
    requires Tight(product) && OneLine(product)
    ensures Says("Mahsulot: " + product, "Mahsulot:", product)
  {
    KeyLine("Mahsulot:", product);
    assert "Mahsulot: " + product == "Mahsulot:" + " " + product;
  }

  lemma IdLine(id: string)
    requires Tight(id) && OneLine(id)
    ensures Says("RS map id: " + id, "RS map id:", id)
  {
    KeyLine("RS map id:", id);
    assert "RS map id: " + id == "RS map id:" + " " + id;
  }

  /** What the three header lines are read back as. */
  lemma HeaderReads(l1: string, l2: string, l3: string, order: string, product: string, id: string)
    requires Says(l1, "Zakaz:", order) && Says(l2, "Mahsulot:", product) && Says(l3, "RS map id:", id) && l3 != []
    ensures var text := Join([l1, l2, l3], "\n");
            && DescriptionValue(text, "Zakaz:") == Some(order)
            && DescriptionValue(text, "Mahsulot:") == Some(product)
            && DescriptionValue(text, "RS map id:") == Some(id)
  {
    JoinCons(l1, [l2, l3], "\n");
    JoinCons(l2, [l3], "\n");
    assert [l1] + [l2, l3] == [l1, l2, l3] && [l2] + [l3] == [l2, l3];
    FindPast(l1, l2 + "\n" + l3, "Zakaz:", order, "Mahsulot:");
    FindPast(l1, l2 + "\n" + l3, "Zakaz:", order, "RS map id:");
    FindPast(l2, l3, "Mahsulot:", product, "RS map id:");
    LinesOne(l3);
  }

  lemma FirstWordOf(word: string, rest: string)
    requires word != [] && forall i | 0 <= i < |word| :: !IsWhite(word[i])
    requires rest == [] || IsWhite(rest[0])
    ensures FirstWord(word + rest) == Some(word)
  {
    var s := word + rest;
    assert s[0] == word[0];
    var n := WordLength(s);
    assert forall i | 0 <= i < |word| :: s[i] == word[i];
    assert |word| == |s| || s[|word|] == rest[0];
    assert s[..|word|] == word;
  }

  predicate FourDecimals(v: real) {
    (v * 10000.0).Floor as real == v * 10000.0
  }

  lemma FourDecimalsRead(w: real)
    requires FourDecimals(w)
    ensures ParseFloat(NumberText(w)) == Some(w)
  {
    ReadAs(w, (w * 10000.0).Floor);
  }

  lemma ReadAs(w: real, q: int)
    requires w == q as real / 10000.0
    ensures ParseFloat(NumberText(w)) == Some(w)
  {
    NumberRoundTrip(q);
  }

  lemma WidthLine(number: string)
    requires number != [] && forall i | 0 <= i < |number| :: NumberChar(number[i])
    ensures Says("Material razmer: " + number + " mm", "Material razmer:", number + " mm")
    ensures FirstWord(number + " mm") == Some(number)
  {
    var value := number + " mm";
    assert NumberChar(number[0]);
    assert Tight(value) by { assert value[0] == number[0]; }
    assert Free(value, '\n');
    KeyLine("Material razmer:", value);
    assert "Material razmer: " + number + " mm" == "Material razmer:" + " " + value;
    FirstWordOf(number, " mm");
  }

  lemma SecondLineReads(l1: string, l2: string, details: seq<string>, order: string, value: string)
    requires details != [] && Says(l1, "Zakaz:", order) && Says(l2, "Material razmer:", value)
    ensures DescriptionValue(Join([l1, l2] + details, "\n"), "Material razmer:") == Some(value)
  {
    var rest := Join(details, "\n");
    JoinCons(l1, [l2] + details, "\n");
    JoinCons(l2, details, "\n");
    assert [l1, l2] + details == [l1] + ([l2] + details);
    FindPast(l1, l2 + "\n" + rest, "Zakaz:", order, "Material razmer:");
    FindPast(l2, rest, "Material razmer:", value, "Zakaz:");
  }

  /** The width is read back from an operation's description, whatever the layer texts hold. */
  lemma WidthReads(plan: Definition, template: Template, rubberSize: int, order: string)
    requires Tight(order) && OneLine(order) && FourDecimals(WidthMm(plan, template))
    ensures DescriptionNumber(OperationDescription(plan, template, order, rubberSize), "Material razmer:")
         == Some(WidthMm(plan, template))
  {
    var number := NumberText(WidthMm(plan, template));
    TrimOfTight(order, IsWhite);
    ZakazLine(order);
    NumberTextPlain(WidthMm(plan, template));
    WidthLine(number);
    FourDecimalsRead(WidthMm(plan, template));
    SecondLineReads("Zakaz: /" + order, "Material razmer: " + number + " mm",
                    DetailLines(plan, template, rubberSize), "/" + order, number + " mm");
  }

  // ---------------------------------------------------------------- stored rows

  /** The server keeps item, description and operations; the operations may come back in any order. */
  ghost predicate StoredAs(document: Document, payload: WorkOrderPayload) {
    && document.productionItem == payload.productionItem
    && document.description == payload.description
    && multiset(document.operations) == multiset(RowsOf(payload.operations))
  }

  ghost predicate Exportable(plan: Definition, template: Template) {
    && OneLine(OrderNumber(plan, template)) && OneLine(ProductName(plan, template))
    && OneLine(Trim(plan.id)) && Trim(plan.id) != []
    && FlowOrder(plan) != []
    && (forall i | 0 <= i < |FlowOrder(plan)| :: WorkstationName(FlowOrder(plan)[i]) != [])
    && RollCount(plan, template) > 0.0
    && FourDecimals(WidthMm(plan, template))
  }

  ghost function ExportedRows(plan: Definition, template: Template): seq<OperationRow> {
    RowsOf(Export(plan, template).operations)
  }

  lemma RowAt(plan: Definition, template: Template, i: nat)
    requires i < |FlowOrder(plan)|
    ensures |ExportedRows(plan, template)| == |FlowOrder(plan)|
    ensures ExportedRows(plan, template)[i] == RowOf(OperationFor(plan, template, FlowOrder(plan)[i], i))
  {
  }

  lemma SequencePreorder()
    ensures TotalPreorder(SequenceOrdering())
  {
    forall a: OperationRow, b: OperationRow ensures SequenceLe(a, b) || SequenceLe(b, a) {
      StrLeTotal(a.workstation, b.workstation);
    }
    forall a: OperationRow, b: OperationRow, c: OperationRow | SequenceLe(a, b) && SequenceLe(b, c)
      ensures SequenceLe(a, c)
    {
      if StrLe(a.workstation, b.workstation) && StrLe(b.workstation, c.workstation) {
        StrLeTrans(a.workstation, b.workstation, c.workstation);
      }
    }
  }

  lemma {:induction false} AllNamed(rows: seq<OperationRow>)
    requires forall r | r in multiset(rows) :: Trim(r.workstation) != []
    ensures WithWorkstation(rows) == rows
  {
    if rows != [] {
      assert rows == [rows[0]] + rows[1..];
      assert rows[0] in multiset(rows);
      AllNamed(rows[1..]);
    }
  }

  ghost predicate Numbered(rows: seq<OperationRow>) {
    forall i | 0 <= i < |rows| :: rows[i].sequenceId == i + 1
  }

  lemma NoTies(rows: seq<OperationRow>, a: OperationRow, b: OperationRow)
    requires Numbered(rows) && a in multiset(rows) && b in multiset(rows) && a.sequenceId == b.sequenceId
    ensures a == b
  {
    var i :| 0 <= i < |rows| && rows[i] == a;
    var j :| 0 <= j < |rows| && rows[j] == b;
    assert rows[i].sequenceId == i + 1 && rows[j].sequenceId == j + 1;
  }

  /** Any permutation of numbered rows is sorted back into place. */
  lemma SortedBack(stored: seq<OperationRow>, rows: seq<OperationRow>)
    requires multiset(stored) == multiset(rows) && Numbered(rows)
    ensures SortBy(stored, SequenceOrdering()) == rows
  {
    var le := SequenceOrdering();
    SequencePreorder();
    SortBySorted(stored, le);
    SortByPermutes(stored, le);
    assert SortedBy(rows, le);
    forall a, b | a in multiset(rows) && b in multiset(rows) && le(a, b) && le(b, a) ensures a == b {
      NoTies(rows, a, b);
    }
    SortedUnique(SortBy(stored, le), rows, le);
  }

  lemma WorkstationTight(node: Node)
    ensures Tight(WorkstationName(node)) && Trim(WorkstationName(node)) == WorkstationName(node)
  {
    TrimTwice(node.title);
    TrimTwice(node.assignedTitle);
  }

  lemma StoredRows(plan: Definition, template: Template, document: Document)
    requires Exportable(plan, template) && StoredAs(document, Export(plan, template))
    ensures ImportedRows(document) == ExportedRows(plan, template)
  {
    var rows := ExportedRows(plan, template);
    forall i | 0 <= i < |rows| ensures rows[i].sequenceId == i + 1 && Trim(rows[i].workstation) != [] {
      RowAt(plan, template, i);
      WorkstationTight(FlowOrder(plan)[i]);
    }
    forall r | r in multiset(document.operations) ensures Trim(r.workstation) != [] {
      assert r in multiset(rows);
    }
    AllNamed(document.operations);
    SortedBack(document.operations, rows);
  }

  lemma SlashCut(order: string)
    ensures TrimSlashes("/" + order) == TrimSlashes(order)
    ensures order == [] || order[0] != '/' ==> TrimSlashes(order) == order
  {
    assert ("/" + order)[1..] == order;
  }

  lemma HeaderFields(plan: Definition, template: Template)
    requires OneLine(OrderNumber(plan, template)) && OneLine(ProductName(plan, template))
    requires OneLine(Trim(plan.id)) && Trim(plan.id) != []
    ensures var text := HeaderDescription(plan, template);
            && DescriptionValue(text, "Zakaz:") == Some("/" + OrderNumber(plan, template))
            && DescriptionValue(text, "Mahsulot:") == Some(ProductName(plan, template))
            && DescriptionValue(text, "RS map id:") == Some(Trim(plan.id))
  {
    var order, product, id := OrderNumber(plan, template), ProductName(plan, template), Trim(plan.id);
    FirstNonEmptyTight([plan.orderNumber, plan.code, template.orderNumber, template.code]);
    FirstNonEmptyTight([template.product, template.name, plan.title]);
    TrimTwice(plan.id);
    ZakazLine(order);
    MahsulotLine(product);
    IdLine(id);
    HeaderReads("Zakaz: /" + order, "Mahsulot: " + product, "RS map id: " + id, "/" + order, product, id);
  }

  /** The title that comes back: the product name, or the item code when there is none. */
  function TitleBack(plan: Definition, template: Template): string {
    if ProductName(plan, template) != [] then ProductName(plan, template) else ItemCode(plan, template)
  }

  lemma FieldsBack(plan: Definition, template: Template, document: Document)
    requires Exportable(plan, template) && StoredAs(document, Export(plan, template))
    ensures ImportedOrder(document) == Trim(TrimSlashes(OrderNumber(plan, template)))
    ensures ImportedTitle(document) == TitleBack(plan, template)
    ensures Trim(document.productionItem) == ItemCode(plan, template)
    ensures DescriptionValue(document.description, "RS map id:") == Some(Trim(plan.id))
  {
    HeaderFields(plan, template);
    SlashCut(OrderNumber(plan, template));
    FirstNonEmptyTight([template.product, template.name, plan.title]);
    FirstNonEmptyTight([template.itemCode, plan.productCode]);
    TrimOfTight(ProductName(plan, template), IsWhite);
    TrimOfTight(ItemCode(plan, template), IsWhite);
  }

  /** Importing what was exported recovers id, order number, title, roll count, width and the
      workstations in flow order, from any arrangement of the stored operation rows. */
  lemma ExportThenImport(plan: Definition, template: Template, document: Document)
    requires Exportable(plan, template) && StoredAs(document, Export(plan, template))
    ensures Import(document).Some?
    ensures var back := Import(document).value;
            && back.id == Trim(plan.id)
            && back.productCode == ItemCode(plan, template)
            && back.orderNumber == back.code == Trim(TrimSlashes(OrderNumber(plan, template)))
            && back.title == TitleBack(plan, template)
            && back.rollCount == Some(RollCount(plan, template))
            && back.widthMm == Some(WidthMm(plan, template))
            && back.nodes == ChainNodes(ExportedRows(plan, template), back.title)
            && back.edges == ChainEdges(|FlowOrder(plan)|)
  {
    FieldsBack(plan, template, document);
    StoredRows(plan, template, document);
    FirstRowReads(plan, template);
    TrimTwice(plan.id);
  }

  // ----------------------------------------------------------------- export again

  /** The order number the next export writes is the first one's: it has no leading slash, or nothing
      but slashes and the template repeats it. */
  predicate OrderStays(plan: Definition, template: Template) {
    var order := OrderNumber(plan, template);
    || !("/" <= order)
    || (Trim(TrimSlashes(order)) == "" && FirstNonEmpty([template.orderNumber, template.code]) == order)
  }

  lemma FirstOfTwo(a: string, b: string)
    ensures FirstNonEmpty([a, b]) == if Trim(a) != [] then Trim(a) else Trim(b)
  {
    assert [a, b][1..] == [b] && [b][1..] == [];
    assert FirstNonEmpty([b]) == if Trim(b) != [] then Trim(b) else FirstNonEmpty([b][1..]);
  }

  lemma FirstOfThree(a: string, b: string, c: string)
    ensures FirstNonEmpty([a, b, c])
         == if Trim(a) != [] then Trim(a) else if Trim(b) != [] then Trim(b) else Trim(c)
  {
    assert [a, b, c][1..] == [b, c];
    FirstOfTwo(b, c);
  }

  lemma FirstOfFour(a: string, c: string, d: string)
    ensures FirstNonEmpty([a, a, c, d]) == if Trim(a) != [] then Trim(a) else FirstNonEmpty([c, d])
  {
    assert [a, a, c, d][1..] == [a, c, d];
    FirstOfThree(a, c, d);
    FirstOfTwo(c, d);
  }

  lemma OrderNumberAgain(plan: Definition, template: Template, back: Definition)
    requires back.orderNumber == back.code == Trim(TrimSlashes(OrderNumber(plan, template)))
    ensures OrderNumber(back, template) == OrderNumber(plan, template) <==> OrderStays(plan, template)
  {
    var values := [plan.orderNumber, plan.code, template.orderNumber, template.code];
    FirstNonEmptyTight(values);
    FirstOfFour(back.orderNumber, template.orderNumber, template.code);
    TrimTwice(TrimSlashes(OrderNumber(plan, template)));
    OrderNumberRecovered(plan, template);
    if OrderNumber(plan, template) == [] {
      assert Trim(values[2]) == [] && Trim(values[3]) == [];
      FirstOfTwo(template.orderNumber, template.code);
    }
  }

  ghost predicate SameExport(a: Definition, b: Definition, template: Template) {
    && RollCount(a, template) == RollCount(b, template)
    && WidthMm(a, template) == WidthMm(b, template)
    && Trim(a.id) == Trim(b.id)
  }

  lemma SameDescription(a: Definition, b: Definition, template: Template, order: string, rubberSize: int)
    requires SameExport(a, b, template)
    ensures OperationDescription(a, template, order, rubberSize) == OperationDescription(b, template, order, rubberSize)
  {
  }

  /** An operation's description shows its order number and nothing else that could make up for it. */
  lemma OrderShown(plan: Definition, template: Template, a: string, b: string, rubberSize: int)
    ensures OperationDescription(plan, template, a, rubberSize) == OperationDescription(plan, template, b, rubberSize)
       <==> Trim(a) == Trim(b)
  {
    OrderInFront(plan, template, a, rubberSize);
    OrderInFront(plan, template, b, rubberSize);
    SameMiddle("Zakaz: /", Trim(a), Trim(b), "\n" + LaterLines(plan, template, rubberSize));
  }

  function LaterLines(plan: Definition, template: Template, rubberSize: int): string {
    Join(["Material razmer: " + NumberText(WidthMm(plan, template)) + " mm"]
         + DetailLines(plan, template, rubberSize), "\n")
  }

  lemma OrderInFront(plan: Definition, template: Template, order: string, rubberSize: int)
    ensures OperationDescription(plan, template, order, rubberSize)
         == "Zakaz: /" + Trim(order) + ("\n" + LaterLines(plan, template, rubberSize))
  {
    FirstLineJoined("Zakaz: /" + Trim(order), "Material razmer: " + NumberText(WidthMm(plan, template)) + " mm",
                    DetailLines(plan, template, rubberSize));
  }

  lemma FirstLineJoined(a: string, b: string, rest: seq<string>)
    ensures Join([a, b] + rest, "\n") == a + ("\n" + Join([b] + rest, "\n"))
  {
    assert [a, b] + rest == [a] + ([b] + rest);
    JoinCons(a, [b] + rest, "\n");
  }

  lemma SameMiddle(front: string, a: string, b: string, back: string)
    ensures front + a + back == front + b + back <==> a == b
  {
    if front + a + back == front + b + back {
      var s := front + a + back;
      assert |a| == |b|;
      assert a == s[|front|..|front| + |a|] && b == s[|front|..|front| + |b|];
    }
  }

  lemma ExportedRowAgain(back: Definition, plan: Definition, template: Template, i: nat)
    requires SameExport(back, plan, template) && i < |ExportedRows(plan, template)|
    requires FlowOrder(back) == ApparatusNodes(ExportedRows(plan, template))
    ensures |ExportedRows(back, template)| == |ExportedRows(plan, template)|
    ensures ExportedRows(back, template)[i] == ExportedRows(plan, template)[i]
       <==> OrderNumber(back, template) == OrderNumber(plan, template)
  {
    RowAt(plan, template, i);
    RowAt(back, template, i);
    WorkstationTight(FlowOrder(plan)[i]);
    WorkstationAgain(ExportedRows(plan, template)[i], i);
    SameDescription(back, plan, template, OrderNumber(back, template), RubberSizeMm(template));
    OrderShown(plan, template, OrderNumber(back, template), OrderNumber(plan, template), RubberSizeMm(template));
    OrderIsTight(plan, template);
    OrderIsTight(back, template);
  }

  lemma OrderIsTight(plan: Definition, template: Template)
    ensures Trim(OrderNumber(plan, template)) == OrderNumber(plan, template)
  {
    FirstNonEmptyTight([plan.orderNumber, plan.code, template.orderNumber, template.code]);
    TrimOfTight(OrderNumber(plan, template), IsWhite);
  }

  lemma RebuiltIsSame(plan: Definition, template: Template, back: Definition)
    requires Exportable(plan, template)
    requires back.id == Trim(plan.id) && back.rollCount == Some(RollCount(plan, template))
    requires back.widthMm == Some(WidthMm(plan, template))
    ensures SameExport(back, plan, template)
  {
    TrimTwice(plan.id);
  }

  /** Exporting the rebuilt map again, with the same template, gives the same operation rows
      (workstations, descriptions, sequence numbers and batch sizes) exactly when the order number
      stays. */
  lemma ExportAgain(plan: Definition, template: Template, document: Document)
    requires Exportable(plan, template) && StoredAs(document, Export(plan, template))
    ensures Import(document).Some?
    ensures ExportedRows(Import(document).value, template) == ExportedRows(plan, template)
       <==> OrderStays(plan, template)
  {
    ExportThenImport(plan, template, document);
    var back := Import(document).value;
    OrderNumberAgain(plan, template, back);
    RebuiltIsSame(plan, template, back);
    var rows := ExportedRows(plan, template);
    ChainFlowOrder(back, rows, back.title);
    forall i: nat | i < |rows|
      ensures |ExportedRows(back, template)| == |rows|
      ensures ExportedRows(back, template)[i] == rows[i] <==> OrderStays(plan, template)
    {
      ExportedRowAgain(back, plan, template, i);
    }
    RowAt(plan, template, 0);
  }

  lemma WorkstationAgain(row: OperationRow, i: nat)
    requires Trim(row.workstation) == row.workstation
    ensures WorkstationName(ApparatusNode(row, i)) == row.workstation
  {
    TrimTwice(row.workstation);
  }

  lemma FirstRowReads(plan: Definition, template: Template)
    requires Exportable(plan, template)
    ensures |ExportedRows(plan, template)| == |FlowOrder(plan)|
    ensures FirstBatch(ExportedRows(plan, template)) == Some(RollCount(plan, template))
    ensures FirstWidth(ExportedRows(plan, template)) == Some(WidthMm(plan, template))
  {
    RowAt(plan, template, 0);
    FirstNonEmptyTight([plan.orderNumber, plan.code, template.orderNumber, template.code]);
    WidthReads(plan, template, RubberSizeMm(template), OrderNumber(plan, template));
  }

  /** The order number comes back unchanged exactly when it does not begin with a slash. */
  lemma OrderNumberRecovered(plan: Definition, template: Template)
    ensures var order := OrderNumber(plan, template);
            Trim(TrimSlashes(order)) == order <==> !("/" <= order)
  {
    var order := OrderNumber(plan, template);
    FirstNonEmptyTight([plan.orderNumber, plan.code, template.orderNumber, template.code]);
    if "/" <= order {
      var cut := TrimSlashes(order);
      assert |cut| < |order|;
      var before, after := TrimCuts(cut, IsWhite);
      assert |Trim(cut)| <= |cut|;
    } else {
      SlashCut(order);
      TrimOfTight(order, IsWhite);
    }
  }

  lemma ItemCodeAgain(plan: Definition, template: Template, back: Definition)
    requires back.productCode == ItemCode(plan, template)
    ensures ItemCode(back, template) == ItemCode(plan, template)
  {
    FirstOfTwo(template.itemCode, plan.productCode);
    FirstOfTwo(template.itemCode, back.productCode);
    TrimTwice(template.itemCode);
    TrimTwice(plan.productCode);
  }

  lemma ProductNameAgain(plan: Definition, template: Template, back: Definition)
    requires back.title == TitleBack(plan, template)
    ensures ProductName(back, template)
         == if ProductName(plan, template) != [] then ProductName(plan, template) else ItemCode(plan, template)
  {
    FirstOfThree(template.product, template.name, plan.title);
    FirstOfThree(template.product, template.name, back.title);
    TitleIsTight(plan, template);
  }

  lemma TitleIsTight(plan: Definition, template: Template)
    ensures Trim(TitleBack(plan, template)) == TitleBack(plan, template)
  {
    FirstNonEmptyTight([template.product, template.name, plan.title]);
    FirstNonEmptyTight([template.itemCode, plan.productCode]);
    TrimOfTight(TitleBack(plan, template), IsWhite);
  }

  /** A header shows its order number and its product name: with an order number of one line, neither
      makes up for the other as long as a product name is only ever put where there was none. */
  lemma HeaderShows(front: string, a: string, b: string, middle: string, p: string, q: string, back: string)
    requires Free(a, '\n') && middle != [] && middle[0] == '\n' && (p == q || p == [])
    ensures front + a + middle + p + back == front + b + middle + q + back <==> a == b && p == q
  {
    var s, t := front + a + middle + p + back, front + b + middle + q + back;
    if |b| < |a| {
      assert s[|front| + |b|] == a[|b|] && a[|b|] in a && t[|front| + |b|] == '\n';
    }
    if s == t {
      assert |a| + |p| == |b| + |q|;
      assert a == s[|front|..|front| + |a|] && b == t[|front|..|front| + |a|];
    }
  }

  lemma HeaderText(plan: Definition, template: Template)
    ensures HeaderDescription(plan, template)
         == "Zakaz: /" + OrderNumber(plan, template) + ("\n" + "Mahsulot: ") + ProductName(plan, template)
            + ("\n" + ("RS map id: " + Trim(plan.id)))
  {
    JoinThree("Zakaz: /" + OrderNumber(plan, template), "Mahsulot: ", ProductName(plan, template),
              "RS map id: " + Trim(plan.id));
  }

  lemma JoinThree(a: string, key: string, value: string, c: string)
    ensures Join([a, key + value, c], "\n") == a + ("\n" + key) + value + ("\n" + c)
  {
    JoinCons(a, [key + value, c], "\n");
    JoinCons(key + value, [c], "\n");
    assert [a] + [key + value, c] == [a, key + value, c] && [key + value] + [c] == [key + value, c];
  }

  /** The second export has the first one's item and quantity, and its header exactly when the order
      number stays and there was a product name, or no item code to stand in for it. */
  lemma ExportAgainHeader(plan: Definition, template: Template, document: Document)
    requires Exportable(plan, template) && StoredAs(document, Export(plan, template))
    ensures Import(document).Some?
    ensures var first, again := Export(plan, template), Export(Import(document).value, template);
            && again.productionItem == first.productionItem && again.qty == first.qty
            && (again.description == first.description
                <==> OrderStays(plan, template)
                     && (ProductName(plan, template) != "" || ItemCode(plan, template) == ""))
  {
    ExportThenImport(plan, template, document);
    var back := Import(document).value;
    OrderNumberAgain(plan, template, back);
    ItemCodeAgain(plan, template, back);
    ProductNameAgain(plan, template, back);
    TrimTwice(plan.id);
    HeaderText(plan, template);
    HeaderText(back, template);
    HeaderShows("Zakaz: /", OrderNumber(plan, template), OrderNumber(back, template), "\n" + "Mahsulot: ",
                ProductName(plan, template), ProductName(back, template), "\n" + ("RS map id: " + Trim(plan.id)));
  }
}
