/** Any number of calls of the sink at once (src/google_sheets.rs holds no lock): each runs request by
    request on the one sheet, in any interleaving. */
module OrderOverlap {
  import opened Sequences
  import opened OrderRows
  import opened OrderSheets

  /** Where a call stands: the request it sends next, or the rows its append put into the sheet. */
  datatype Client = AtRead | AtInsert | AtHeader | AtFormat | AtCodes | AtAppend(rows: seq<Row>) | Ended(put: seq<Row>)

  /** A call: how it chooses rows, and what becomes of its requests. */
  datatype Task = Task(choose: set<string> -> seq<Row>, fates: Fates)

  /** The sheet after a call's next request. */
  function SheetAfter(client: Client, s: Sheet, header: Row, f: Fates): Sheet {
    match client
    case AtInsert => Perform(f.insert, s, WithEmptyRow(s))
    case AtHeader => Perform(f.header, s, WithHeader(s, header))
    case AtAppend(rows) => Appended(s, rows, f.append)
    case _ => s
  }

  /** Where the call stands after it; fetching the token and reading the sheet are one step. */
  function Next(client: Client, s: Sheet, task: Task): Client {
    var f := task.fates;
    match client
    case AtRead => if !f.token || !f.firstRead then Ended([]) else if HasHeader(s) then AtHeader else AtInsert
    case AtInsert => if f.insert == Done then AtHeader else Ended([])
    case AtHeader => if f.header == Done then AtFormat else Ended([])
    case AtFormat => if f.format == Done then AtCodes else Ended([])
    case AtCodes => if f.secondRead then AtAppend(task.choose(SheetCodes(s))) else Ended([])
    case AtAppend(rows) => Ended(if f.append == Dropped then [] else rows)
    case Ended(put) => client
  }

  datatype World = World(sheet: Sheet, clients: seq<Client>)

  /** The next request of one of the calls. */
  function Turn(w: World, header: Row, i: nat, tasks: seq<Task>): World
    requires |w.clients| == |tasks|
  {
    if i >= |tasks| then w
    else
      World(SheetAfter(w.clients[i], w.sheet, header, tasks[i].fates),
            w.clients[i := Next(w.clients[i], w.sheet, tasks[i])])
  }

  /** The calls after their requests were served in this order. */
  function Interleave(s: Sheet, header: Row, tasks: seq<Task>, schedule: seq<nat>): (w: World)
    ensures |w.clients| == |tasks|
  {
    if schedule == [] then World(s, seq(|tasks|, _ => AtRead))
    else Turn(Interleave(s, header, tasks, schedule[..|schedule| - 1]), header, schedule[|schedule| - 1], tasks)
  }

  ghost predicate AllChoose(tasks: seq<Task>) {
    forall i | 0 <= i < |tasks| :: Chooses(tasks[i].choose)
  }

  // ------------------------------------------------------------------ one call alone

  function Ahead(client: Client): nat {
    match client
    case AtRead => 6 case AtInsert => 5 case AtHeader => 4 case AtFormat => 3 case AtCodes => 2
    case AtAppend(_) => 1 case Ended(_) => 0
  }

  /** The sheet when a call has run to its end with no other request between. */
  function Finish(client: Client, s: Sheet, header: Row, t: Task): Sheet
    decreases Ahead(client)
  {
    if client.Ended? then s else Finish(Next(client, s, t), SheetAfter(client, s, header, t.fates), header, t)
  }

  lemma FinishFromCodes(s: Sheet, header: Row, t: Task)
    ensures Finish(AtCodes, s, header, t)
         == if t.fates.secondRead then Appended(s, t.choose(SheetCodes(s)), t.fates.append) else s
  {
    var rows := t.choose(SheetCodes(s));
    assert Finish(AtAppend(rows), s, header, t) == Appended(s, rows, t.fates.append);
  }

  lemma FinishFromHeader(s: Sheet, header: Row, t: Task)
    ensures Finish(AtHeader, s, header, t)
         == var u := Perform(t.fates.header, s, WithHeader(s, header));
            if t.fates.header != Done || t.fates.format != Done then u else Finish(AtCodes, u, header, t)
  {
    var u := Perform(t.fates.header, s, WithHeader(s, header));
    assert Finish(AtFormat, u, header, t) == if t.fates.format == Done then Finish(AtCodes, u, header, t) else u;
  }

  lemma FinishFromInsert(s: Sheet, header: Row, t: Task)
    ensures Finish(AtInsert, s, header, t)
         == var u := Perform(t.fates.insert, s, WithEmptyRow(s));
            if t.fates.insert != Done then u else Finish(AtHeader, u, header, t)
  {
  }

  /** Run without interruption, the requests of a call are the call as it is specified. */
  lemma AloneIsAfter(s: Sheet, header: Row, t: Task)
    ensures Finish(AtRead, s, header, t) == After(s, header, t.choose, t.fates)
  {
    var f := t.fates;
    if f.token && f.firstRead {
      if HasHeader(s) {
        FinishFromHeader(s, header, t);
      } else {
        FinishFromInsert(s, header, t);
        FinishFromHeader(Perform(f.insert, s, WithEmptyRow(s)), header, t);
      }
      FinishFromCodes(LaidOut(s, header, f), header, t);
    }
  }

  // ------------------------------------------------- no interleaving loses an order

  /** The first row holds no data. */
  predicate FrontClear(s: Sheet) {
    s != [] && (s[0] == [] || IsHeaderRow(s[0]))
  }

  lemma FrontStaysClear(client: Client, s: Sheet, header: Row, f: Fates)
    requires IsHeaderRow(header) && FrontClear(s)
    ensures FrontClear(SheetAfter(client, s, header, f))
  {
  }

  /** Whoever is about to write the header writes it over no data. */
  lemma HeaderOverNoData(client: Client, s: Sheet, header: Row, t: Task)
    requires IsHeaderRow(header) && Next(client, s, t) == AtHeader
    ensures FrontClear(SheetAfter(client, s, header, t.fates))
  {
  }

  lemma RequestKeepsData(client: Client, s: Sheet, header: Row, f: Fates)
    requires IsHeaderRow(header) && !client.AtAppend? && (client == AtHeader ==> FrontClear(s))
    ensures SameData(s, SheetAfter(client, s, header, f))
  {
    if client == AtInsert {
      FrontRow([], s);
      PerformSame(f.insert, s, s, WithEmptyRow(s));
    } else if client == AtHeader {
      HeaderWritten(s, header);
      PerformSame(f.header, s, s, WithHeader(s, header));
    }
  }

  /** Rows a call may append: orders' rows with codes apart. */
  ghost predicate Proper(rows: seq<Row>) {
    Fresh(rows, {})
  }

  ghost predicate ProperClient(client: Client) {
    client.AtAppend? ==> Proper(client.rows)
  }

  lemma ChosenAreProper(client: Client, s: Sheet, t: Task)
    requires Chooses(t.choose)
    ensures ProperClient(Next(client, s, t))
  {
    NextAppend(client, s, t);
    FreshIsProper(t.choose(SheetCodes(s)), SheetCodes(s));
  }

  lemma NextAppend(client: Client, s: Sheet, t: Task)
    ensures Next(client, s, t).AtAppend? ==> Next(client, s, t) == AtAppend(t.choose(SheetCodes(s)))
  {
  }

  lemma FreshIsProper(rows: seq<Row>, codes: set<string>)
    requires Fresh(rows, codes)
    ensures Proper(rows)
  {
  }

  /** What holds of a call at every moment. */
  ghost predicate OrderlyClient(client: Client, s: Sheet) {
    ProperClient(client) && (client == AtHeader ==> FrontClear(s))
  }

  ghost predicate Orderly(w: World) {
    forall i | 0 <= i < |w.clients| :: OrderlyClient(w.clients[i], w.sheet)
  }

  lemma {:induction false} AlwaysOrderly(s: Sheet, header: Row, tasks: seq<Task>, schedule: seq<nat>)
    requires IsHeaderRow(header) && AllChoose(tasks)
    ensures Orderly(Interleave(s, header, tasks, schedule))
  {
    if schedule != [] {
      var n := |schedule| - 1;
      AlwaysOrderly(s, header, tasks, schedule[..n]);
      OrderlyNext(Interleave(s, header, tasks, schedule[..n]), header, schedule[n], tasks);
    }
  }

  lemma MoverOrderly(client: Client, s: Sheet, header: Row, t: Task)
    requires IsHeaderRow(header) && Chooses(t.choose)
    ensures OrderlyClient(Next(client, s, t), SheetAfter(client, s, header, t.fates))
  {
    ChosenAreProper(client, s, t);
    if Next(client, s, t) == AtHeader { HeaderOverNoData(client, s, header, t); }
  }

  lemma OrderlyNext(w: World, header: Row, i: nat, tasks: seq<Task>)
    requires |w.clients| == |tasks| && IsHeaderRow(header) && AllChoose(tasks) && Orderly(w)
    ensures Orderly(Turn(w, header, i, tasks))
  {
    if i < |tasks| {
      MoverOrderly(w.clients[i], w.sheet, header, tasks[i]);
      if FrontClear(w.sheet) { FrontStaysClear(w.clients[i], w.sheet, header, tasks[i].fates); }
    }
  }

  lemma AppendIs(rows: seq<Row>, s: Sheet, header: Row, f: Fates)
    ensures SheetAfter(AtAppend(rows), s, header, f) == Appended(s, rows, f.append)
  {
  }

  lemma AppendedKeeps(s: Sheet, rows: seq<Row>, fate: Fate)
    ensures DataRows(s) <= DataRows(Appended(s, rows, fate)) && OrderCodes(s) <= OrderCodes(Appended(s, rows, fate))
  {
    FilterOfConcat(s, rows, IsData);
    CodesOfConcat(s, rows);
  }

  lemma MoverKeeps(client: Client, s: Sheet, header: Row, f: Fates)
    requires IsHeaderRow(header) && OrderlyClient(client, s)
    ensures var after := SheetAfter(client, s, header, f);
            DataRows(s) <= DataRows(after) && OrderCodes(s) <= OrderCodes(after)
  {
    if client.AtAppend? {
      AppendIs(client.rows, s, header, f);
      AppendedKeeps(s, client.rows, f.append);
    } else {
      RequestKeepsData(client, s, header, f);
    }
  }

  /** However the calls interleave and whatever becomes of their requests, no data row is lost, moved
      or overwritten and no order's code goes away. */
  lemma {:induction false} OverlapKeepsData(s: Sheet, header: Row, tasks: seq<Task>, schedule: seq<nat>)
    requires IsHeaderRow(header) && AllChoose(tasks)
    ensures var after := Interleave(s, header, tasks, schedule).sheet;
            DataRows(s) <= DataRows(after) && OrderCodes(s) <= OrderCodes(after)
  {
    if schedule != [] {
      var n := |schedule| - 1;
      OverlapKeepsData(s, header, tasks, schedule[..n]);
      AlwaysOrderly(s, header, tasks, schedule[..n]);
      var w, i := Interleave(s, header, tasks, schedule[..n]), schedule[n];
      if i < |tasks| { MoverKeeps(w.clients[i], w.sheet, header, tasks[i].fates); }
    }
  }

  // ---------------------------------------------------- when a code comes in twice

  ghost function Count(s: Sheet, code: string): nat {
    multiset(OrderCodes(s))[code]
  }

  /** The call is about to append the code. */
  predicate Pending(client: Client, code: string) {
    client.AtAppend? && HoldsCode(client.rows, code)
  }

  /** The call has put the code into the sheet. */
  predicate HasPut(client: Client, code: string) {
    client.Ended? && HoldsCode(client.put, code)
  }

  lemma CodesOnce(rows: seq<Row>, code: string)
    requires Proper(rows)
    ensures multiset(OrderCodes(rows))[code] == One(HoldsCode(rows, code))
  {
    AllOrderCodes(rows);
    var codes := Map(rows, RowCode);
    CountDistinct(codes, code);
    if HoldsCode(rows, code) {
      var row :| row in rows && RowCode(row) == code;
      var i :| 0 <= i < |rows| && rows[i] == row;
      assert codes[i] == code;
    }
    if code in codes {
      var i :| 0 <= i < |codes| && codes[i] == code;
      assert rows[i] in rows;
    }
  }

  lemma AppendCounts(s: Sheet, rows: seq<Row>, fate: Fate, code: string)
    requires Proper(rows)
    ensures Count(Appended(s, rows, fate), code) == Count(s, code) + One(fate != Dropped && HoldsCode(rows, code))
  {
    CodesOfConcat(s, rows);
    CodesOnce(rows, code);
  }

  /** A code is put in only by the append that was pending; it is pending only once chosen. */
  lemma NextInvolved(client: Client, s: Sheet, t: Task, code: string)
    ensures !client.AtAppend? ==> (HasPut(Next(client, s, t), code) <==> HasPut(client, code))
    ensures client.AtAppend? ==>
              (HasPut(Next(client, s, t), code) <==> t.fates.append != Dropped && HoldsCode(client.rows, code))
    ensures Pending(Next(client, s, t), code) ==> client == AtCodes && HoldsCode(t.choose(SheetCodes(s)), code)
  {
    NothingHeld(code);
    match client {
      case AtRead => case AtInsert => case AtHeader => case AtFormat =>
      case AtCodes => case AtAppend(rows) => case Ended(put) =>
    }
  }

  lemma NothingHeld(code: string)
    ensures !HoldsCode([], code)
  {
  }

  lemma SameCount(a: Sheet, b: Sheet, code: string)
    requires SameData(a, b)
    ensures Count(a, code) == Count(b, code)
  {
  }

  lemma AppendRequestCounts(rows: seq<Row>, s: Sheet, header: Row, t: Task, code: string)
    requires Proper(rows)
    ensures Count(SheetAfter(AtAppend(rows), s, header, t.fates), code)
         == Count(s, code) + One(HasPut(Next(AtAppend(rows), s, t), code))
  {
    AppendIs(rows, s, header, t.fates);
    AppendCounts(s, rows, t.fates.append, code);
    NextInvolved(AtAppend(rows), s, t, code);
  }

  lemma OtherRequestCounts(client: Client, s: Sheet, header: Row, t: Task, code: string)
    requires IsHeaderRow(header) && !client.AtAppend? && (client == AtHeader ==> FrontClear(s))
    ensures Count(SheetAfter(client, s, header, t.fates), code) == Count(s, code)
    ensures HasPut(Next(client, s, t), code) == HasPut(client, code)
  {
    RequestKeepsData(client, s, header, t.fates);
    SameCount(s, SheetAfter(client, s, header, t.fates), code);
    NextInvolved(client, s, t, code);
  }

  lemma RequestCounts(client: Client, s: Sheet, header: Row, t: Task, code: string)
    requires IsHeaderRow(header) && OrderlyClient(client, s)
    ensures Count(SheetAfter(client, s, header, t.fates), code) + One(HasPut(client, code))
         == Count(s, code) + One(HasPut(Next(client, s, t), code))
  {
    if client.AtAppend? {
      AppendRequestCounts(client.rows, s, header, t, code);
    } else {
      OtherRequestCounts(client, s, header, t, code);
    }
  }

  function PutsCode(code: string): Client -> bool {
    (client: Client) => HasPut(client, code)
  }

  /** How many calls have put the code into the sheet. */
  function Puts(clients: seq<Client>, code: string): nat {
    Tally(clients, PutsCode(code))
  }

  lemma NonePutYet(n: nat, code: string)
    ensures Puts(seq(n, _ => AtRead), code) == 0
  {
    TallyNone(seq(n, _ => AtRead), PutsCode(code));
  }

  /** A code is in the sheet once more for each call that put it there. */
  lemma {:induction false} CodesAreCounted(s: Sheet, header: Row, tasks: seq<Task>, schedule: seq<nat>, code: string)
    requires IsHeaderRow(header) && AllChoose(tasks)
    ensures var w := Interleave(s, header, tasks, schedule);
            Count(w.sheet, code) == Count(s, code) + Puts(w.clients, code)
  {
    if schedule == [] {
      NonePutYet(|tasks|, code);
    } else {
      var n := |schedule| - 1;
      var w, i := Interleave(s, header, tasks, schedule[..n]), schedule[n];
      CodesAreCounted(s, header, tasks, schedule[..n], code);
      AlwaysOrderly(s, header, tasks, schedule[..n]);
      if i < |tasks| {
        RequestCounts(w.clients[i], w.sheet, header, tasks[i], code);
        TallyMoved(w.clients, i, Next(w.clients[i], w.sheet, tasks[i]), PutsCode(code));
      }
    }
  }

  /** Both calls are about to append the code. */
  predicate BothPending(w: World, i: nat, j: nat, code: string) {
    i < |w.clients| && j < |w.clients| && Pending(w.clients[i], code) && Pending(w.clients[j], code)
  }

  ghost predicate MetAt(s: Sheet, header: Row, tasks: seq<Task>, schedule: seq<nat>, i: nat, j: nat, k: nat,
                        code: string) {
    k <= |schedule| && BothPending(Interleave(s, header, tasks, schedule[..k]), i, j, code)
  }

  /** At some moment both calls were about to append the code. */
  ghost predicate Met(s: Sheet, header: Row, tasks: seq<Task>, schedule: seq<nat>, i: nat, j: nat, code: string) {
    exists k :: MetAt(s, header, tasks, schedule, i, j, k, code)
  }

  predicate Involved(client: Client, code: string) {
    Pending(client, code) || HasPut(client, code)
  }

  /** One call has put the code only if the other has nothing to do with it. */
  predicate Exclusive(mine: Client, other: Client, code: string) {
    && (HasPut(mine, code) ==> !Involved(other, code))
    && (HasPut(other, code) ==> !Involved(mine, code))
  }

  lemma NotChosenTwice(s: Sheet, t: Task, code: string)
    requires Chooses(t.choose) && IsOrderCode(code) && code in OrderCodes(s)
    ensures !HoldsCode(t.choose(SheetCodes(s)), code)
  {
    CodeListed(s, code);
    assert Fresh(t.choose(SheetCodes(s)), SheetCodes(s));
  }

  lemma ExclusiveNext(mine: Client, other: Client, s: Sheet, t: Task, code: string)
    requires Chooses(t.choose) && IsOrderCode(code) && Exclusive(mine, other, code)
    requires !(Pending(mine, code) && Pending(other, code))
    requires HasPut(other, code) ==> code in OrderCodes(s)
    ensures Exclusive(Next(mine, s, t), other, code)
  {
    NextInvolved(mine, s, t, code);
    if HasPut(other, code) { NotChosenTwice(s, t, code); }
  }

  lemma CountedIn(s: Sheet, code: string)
    requires Count(s, code) > 0
    ensures code in OrderCodes(s)
  {
  }

  lemma SamePrefix(schedule: seq<nat>, n: nat, k: nat)
    requires k <= n <= |schedule|
    ensures schedule[..n][..k] == schedule[..k]
  {
  }

  lemma MetEarlier(s: Sheet, header: Row, tasks: seq<Task>, schedule: seq<nat>, n: nat, i: nat, j: nat, code: string)
    requires n <= |schedule| && Met(s, header, tasks, schedule[..n], i, j, code)
    ensures Met(s, header, tasks, schedule, i, j, code)
  {
    var k :| MetAt(s, header, tasks, schedule[..n], i, j, k, code);
    SamePrefix(schedule, n, k);
    assert MetAt(s, header, tasks, schedule, i, j, k, code);
  }

  lemma TurnExcludes(w: World, header: Row, m: nat, tasks: seq<Task>, i: nat, j: nat, code: string)
    requires |w.clients| == |tasks| && i < j < |tasks| && AllChoose(tasks) && IsOrderCode(code)
    requires Exclusive(w.clients[i], w.clients[j], code) && !BothPending(w, i, j, code)
    requires HasPut(w.clients[i], code) || HasPut(w.clients[j], code) ==> code in OrderCodes(w.sheet)
    ensures var v := Turn(w, header, m, tasks); Exclusive(v.clients[i], v.clients[j], code)
  {
    if m == i {
      ExclusiveNext(w.clients[i], w.clients[j], w.sheet, tasks[i], code);
    } else if m == j {
      ExclusiveNext(w.clients[j], w.clients[i], w.sheet, tasks[j], code);
    }
  }

  lemma PutIsIn(s: Sheet, header: Row, tasks: seq<Task>, schedule: seq<nat>, i: nat, code: string)
    requires IsHeaderRow(header) && AllChoose(tasks) && i < |tasks|
    requires HasPut(Interleave(s, header, tasks, schedule).clients[i], code)
    ensures code in OrderCodes(Interleave(s, header, tasks, schedule).sheet)
  {
    var w := Interleave(s, header, tasks, schedule);
    CodesAreCounted(s, header, tasks, schedule, code);
    TallyOne(w.clients, i, PutsCode(code));
    CountedIn(w.sheet, code);
  }

  /** As long as two calls have not met, at most one of them deals with the code. */
  lemma {:induction false} UnmetExcludes(s: Sheet, header: Row, tasks: seq<Task>, schedule: seq<nat>, i: nat, j: nat,
                                         code: string)
    requires IsHeaderRow(header) && AllChoose(tasks) && IsOrderCode(code) && i < j < |tasks|
    requires !Met(s, header, tasks, schedule, i, j, code)
    ensures var w := Interleave(s, header, tasks, schedule); Exclusive(w.clients[i], w.clients[j], code)
  {
    if schedule != [] {
      var n := |schedule| - 1;
      var w := Interleave(s, header, tasks, schedule[..n]);
      if Met(s, header, tasks, schedule[..n], i, j, code) { MetEarlier(s, header, tasks, schedule, n, i, j, code); }
      UnmetExcludes(s, header, tasks, schedule[..n], i, j, code);
      assert !MetAt(s, header, tasks, schedule, i, j, n, code);
      if HasPut(w.clients[i], code) { PutIsIn(s, header, tasks, schedule[..n], i, code); }
      if HasPut(w.clients[j], code) { PutIsIn(s, header, tasks, schedule[..n], j, code); }
      TurnExcludes(w, header, schedule[n], tasks, i, j, code);
    }
  }

  /** A call about to append rows is still about to, or has ended with them in the sheet unless its
      append was dropped. */
  predicate Resolves(before: Client, after: Client, f: Fates) {
    before.AtAppend? ==> after == before || after == Ended(if f.append == Dropped then [] else before.rows)
  }

  lemma {:induction false} PendingResolves(s: Sheet, header: Row, tasks: seq<Task>, schedule: seq<nat>, k: nat, i: nat)
    requires k <= |schedule| && i < |tasks|
    ensures var w, v := Interleave(s, header, tasks, schedule[..k]), Interleave(s, header, tasks, schedule);
            Resolves(w.clients[i], v.clients[i], tasks[i].fates)
  {
    if k == |schedule| {
      assert schedule[..k] == schedule;
    } else {
      var n := |schedule| - 1;
      PendingResolves(s, header, tasks, schedule[..n], k, i);
      SamePrefix(schedule, n, k);
    }
  }

  lemma HeldStaysOut(client: Client, s: Sheet, t: Task, code: string)
    requires Chooses(t.choose) && IsOrderCode(code) && code in OrderCodes(s) && !Involved(client, code)
    ensures !Involved(Next(client, s, t), code)
  {
    NextInvolved(client, s, t, code);
    NotChosenTwice(s, t, code);
  }

  lemma PrefixHolds(a: seq<string>, b: seq<string>, code: string)
    requires a <= b && code in a
    ensures code in b
  {
    assert b == a + b[|a|..];
  }

  /** No call deals with the code. */
  ghost predicate LeftAlone(clients: seq<Client>, code: string) {
    forall i | 0 <= i < |clients| :: !Involved(clients[i], code)
  }

  /** A code the sheet already holds is never put in again. */
  lemma {:induction false} HeldIsLeftAlone(s: Sheet, header: Row, tasks: seq<Task>, schedule: seq<nat>, code: string)
    requires IsHeaderRow(header) && AllChoose(tasks) && IsOrderCode(code) && code in OrderCodes(s)
    ensures LeftAlone(Interleave(s, header, tasks, schedule).clients, code)
  {
    if schedule != [] {
      var n := |schedule| - 1;
      var w, i := Interleave(s, header, tasks, schedule[..n]), schedule[n];
      HeldIsLeftAlone(s, header, tasks, schedule[..n], code);
      OverlapKeepsData(s, header, tasks, schedule[..n]);
      PrefixHolds(OrderCodes(s), OrderCodes(w.sheet), code);
      if i < |tasks| { HeldStaysOut(w.clients[i], w.sheet, tasks[i], code); }
    }
  }

  /** Two calls met over the code and both appends took effect. */
  ghost predicate BothAppended(s: Sheet, header: Row, tasks: seq<Task>, schedule: seq<nat>, i: nat, j: nat,
                               code: string) {
    && i < j < |tasks| && Met(s, header, tasks, schedule, i, j, code)
    && Took(Interleave(s, header, tasks, schedule).clients[i], tasks[i])
    && Took(Interleave(s, header, tasks, schedule).clients[j], tasks[j])
  }

  /** The call has ended and its append was not dropped. */
  predicate Took(client: Client, t: Task) {
    client.Ended? && t.fates.append != Dropped
  }

  /** In a sheet whose codes are apart, overlapping calls leave a code more than once exactly when two
      of them were about to append it at one moment, and both appends took effect. */
  lemma OverlapDuplicates(s: Sheet, header: Row, tasks: seq<Task>, schedule: seq<nat>, code: string)
    requires IsHeaderRow(header) && AllChoose(tasks) && Distinct(OrderCodes(s)) && IsOrderCode(code)
    ensures Count(Interleave(s, header, tasks, schedule).sheet, code) > 1
       <==> exists i: nat, j: nat :: BothAppended(s, header, tasks, schedule, i, j, code)
  {
    var w := Interleave(s, header, tasks, schedule);
    CodesAreCounted(s, header, tasks, schedule, code);
    CountDistinct(OrderCodes(s), code);
    if i: nat, j: nat :| BothAppended(s, header, tasks, schedule, i, j, code) {
      MetBothPut(s, header, tasks, schedule, i, j, code);
      TallyTwo(w.clients, i, j, PutsCode(code));
    }
    if Count(w.sheet, code) > 1 {
      var i, j := PutTwice(s, header, tasks, schedule, code);
      if !Met(s, header, tasks, schedule, i, j, code) { UnmetExcludes(s, header, tasks, schedule, i, j, code); }
      MetBothPut(s, header, tasks, schedule, i, j, code);
      assert BothAppended(s, header, tasks, schedule, i, j, code);
    }
  }

  /** A code is there more than once only if two calls put it in. */
  lemma PutTwice(s: Sheet, header: Row, tasks: seq<Task>, schedule: seq<nat>, code: string) returns (i: nat, j: nat)
    requires IsHeaderRow(header) && AllChoose(tasks) && Distinct(OrderCodes(s)) && IsOrderCode(code)
    requires Count(Interleave(s, header, tasks, schedule).sheet, code) > 1
    ensures i < j < |tasks|
    ensures var w := Interleave(s, header, tasks, schedule);
            HasPut(w.clients[i], code) && HasPut(w.clients[j], code)
  {
    var w := Interleave(s, header, tasks, schedule);
    CodesAreCounted(s, header, tasks, schedule, code);
    CountDistinct(OrderCodes(s), code);
    if code in OrderCodes(s) {
      HeldIsLeftAlone(s, header, tasks, schedule, code);
      TallyNone(w.clients, PutsCode(code));
    }
    i, j := TwoTallied(w.clients, PutsCode(code));
  }

  lemma MetBothPut(s: Sheet, header: Row, tasks: seq<Task>, schedule: seq<nat>, i: nat, j: nat, code: string)
    requires i < j < |tasks| && Met(s, header, tasks, schedule, i, j, code)
    ensures var w := Interleave(s, header, tasks, schedule);
            && HasPut(w.clients[i], code) == Took(w.clients[i], tasks[i])
            && HasPut(w.clients[j], code) == Took(w.clients[j], tasks[j])
  {
    var k :| MetAt(s, header, tasks, schedule, i, j, k, code);
    PendingResolves(s, header, tasks, schedule, k, i);
    PendingResolves(s, header, tasks, schedule, k, j);
    NothingHeld(code);
  }

  lemma OneTurn(s: Sheet, header: Row, tasks: seq<Task>, schedule: seq<nat>, i: nat)
    ensures Interleave(s, header, tasks, schedule + [i])
         == Turn(Interleave(s, header, tasks, schedule), header, i, tasks)
  {
    assert (schedule + [i])[..|schedule|] == schedule;
  }

  /** Every request done, and the sheet already has its header. */
  const SMOOTH := Fates(true, true, Done, Done, Done, true, Done)

  lemma SmoothSteps(s: Sheet, header: Row, row: Row)
    requires HasHeader(s) && s[0] == header && RowCode(row) !in SheetCodes(s)
    ensures Smooth(s, header, Task(OneRow(row), SMOOTH), row)
  {
    assert [header] + s[1..] == s;
  }

  predicate Smooth(s: Sheet, header: Row, t: Task, row: Row) {
    && Next(AtRead, s, t) == AtHeader && Next(AtHeader, s, t) == AtFormat && Next(AtFormat, s, t) == AtCodes
    && Next(AtCodes, s, t) == AtAppend([row]) && SheetAfter(AtHeader, s, header, t.fates) == s
  }

  function At(w: World, i: nat, to: Client): World
    requires i < |w.clients|
  {
    w.(clients := w.clients[i := to])
  }

  lemma StepTo(w: World, header: Row, tasks: seq<Task>, i: nat, to: Client)
    requires i < |tasks| == |w.clients| && Next(w.clients[i], w.sheet, tasks[i]) == to
    requires SheetAfter(w.clients[i], w.sheet, header, tasks[i].fates) == w.sheet
    ensures Turn(w, header, i, tasks) == At(w, i, to)
  {
  }

  /** Four requests take a call on such a sheet to its append. */
  lemma ReadsUp(s: Sheet, header: Row, tasks: seq<Task>, row: Row, schedule: seq<nat>, i: nat)
    requires i < |tasks| && Smooth(s, header, tasks[i], row)
    requires var w := Interleave(s, header, tasks, schedule); w.sheet == s && w.clients[i] == AtRead
    ensures Interleave(s, header, tasks, schedule + [i] + [i] + [i] + [i])
         == At(Interleave(s, header, tasks, schedule), i, AtAppend([row]))
  {
    var w := Interleave(s, header, tasks, schedule);
    OneTurn(s, header, tasks, schedule, i);
    StepTo(w, header, tasks, i, AtHeader);
    OneTurn(s, header, tasks, schedule + [i], i);
    StepTo(At(w, i, AtHeader), header, tasks, i, AtFormat);
    OneTurn(s, header, tasks, schedule + [i] + [i], i);
    StepTo(At(w, i, AtFormat), header, tasks, i, AtCodes);
    OneTurn(s, header, tasks, schedule + [i] + [i] + [i], i);
    StepTo(At(w, i, AtCodes), header, tasks, i, AtAppend([row]));
  }

  /** Two calls for the same code that read the sheet before either appends both put it in. */
  lemma ReadTogether(s: Sheet, header: Row, row: Row)
    requires HasHeader(s) && s[0] == header && RowCode(row) !in SheetCodes(s)
    ensures var t := Task(OneRow(row), SMOOTH);
            var schedule := [] + [0] + [0] + [0] + [0] + [1] + [1] + [1] + [1];
            Interleave(s, header, [t, t], schedule + [0] + [1]).sheet == s + [row] + [row]
  {
    var t := Task(OneRow(row), SMOOTH);
    SmoothSteps(s, header, row);
    ReadsUp(s, header, [t, t], row, [], 0);
    ReadsUp(s, header, [t, t], row, [] + [0] + [0] + [0] + [0], 1);
    var schedule := [] + [0] + [0] + [0] + [0] + [1] + [1] + [1] + [1];
    OneTurn(s, header, [t, t], schedule, 0);
    OneTurn(s, header, [t, t], schedule + [0], 1);
  }
}
