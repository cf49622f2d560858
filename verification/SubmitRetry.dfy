/** Submitting a document on a server that others edit: `submit_production_doc`
    (src/erpnext/production_order.rs) and the two shorter loops (src/erpnext/delivery_note.rs,
    src/erpnext/stock_entry.rs). Every request may be preceded by other people's edits and may be
    lost before or after the server acts on it. */
module SubmitRetry {
  import opened Text

  // ------------------------------------------------------------------ the server

  /** A document: 0 draft, 1 submitted, 2 cancelled; every change moves the time stamp. */
  datatype Doc = Doc(status: int, stamp: nat)

  datatype Edit = Touch | SubmitElsewhere | CancelElsewhere

  function Edited(doc: Doc, edit: Edit): Doc {
    match edit
    case Touch => doc.(stamp := doc.stamp + 1)
    case SubmitElsewhere => if doc.status == 0 then Doc(1, doc.stamp + 1) else doc
    case CancelElsewhere => if doc.status == 1 then Doc(2, doc.stamp + 1) else doc
  }

  function EditedAll(doc: Doc, edits: seq<Edit>): Doc {
    if edits == [] then doc else Edited(EditedAll(doc, edits[..|edits| - 1]), edits[|edits| - 1])
  }

  /** What becomes of a request: answered, lost on the way in, or lost on the way out. A refusal by
      the server for any other reason acts like a loss on the way in with the server's message. */
  datatype Fate = Answered | LostIn(message: string) | LostOut(message: string)

  /** What happens around one request: edits just before it arrives, then its fate. */
  datatype Turn = Turn(edits: seq<Edit>, fate: Fate)

  /** What the log keeps of a request; `took` says whether a post submitted the document. */
  datatype Exchange =
    | Got(seen: Option<Doc>)
    | Posted(took: bool, failure: Option<string>)

  datatype World = World(doc: Doc, clock: nat, log: seq<Exchange>)

  const MISMATCH := "TimestampMismatchError"
  const MISMATCH_REPLY := "status 417: TimestampMismatchError"
  const INVALID_REPLY := "status 417: ValidationError"

  datatype Reply<T> = Success(value: T) | Failure(message: string)

  function Get(turns: nat -> Turn, w: World): (World, Reply<Doc>) {
    var turn := turns(w.clock);
    var doc := EditedAll(w.doc, turn.edits);
    match turn.fate
    case Answered => (World(doc, w.clock + 1, w.log + [Got(Some(doc))]), Success(doc))
    case LostIn(m) => (World(doc, w.clock + 1, w.log + [Got(None)]), Failure(m))
    case LostOut(m) => (World(doc, w.clock + 1, w.log + [Got(None)]), Failure(m))
  }

  /** frappe.client.submit: the snapshot must be current and the document a draft. */
  function Submitted(doc: Doc, snapshot: Doc): Reply<Doc> {
    if snapshot.stamp != doc.stamp then Failure(MISMATCH_REPLY)
    else if doc.status != 0 then Failure(INVALID_REPLY)
    else Success(Doc(1, doc.stamp + 1))
  }

  function Post(turns: nat -> Turn, w: World, snapshot: Doc): (World, Reply<()>) {
    var turn := turns(w.clock);
    var doc := EditedAll(w.doc, turn.edits);
    var outcome := Submitted(doc, snapshot);
    var after := if outcome.Success? && !turn.fate.LostIn? then outcome.value else doc;
    match turn.fate
    case Answered =>
      (match outcome
       case Success(_) => (World(after, w.clock + 1, w.log + [Posted(true, None)]), Success(()))
       case Failure(m) => (World(after, w.clock + 1, w.log + [Posted(false, Some(m))]), Failure(m)))
    case LostIn(m) => (World(after, w.clock + 1, w.log + [Posted(false, Some(m))]), Failure(m))
    case LostOut(m) => (World(after, w.clock + 1, w.log + [Posted(outcome.Success?, Some(m))]), Failure(m))
  }

  // ---------------------------------------------------------- submit_production_doc

  datatype Error = Server(message: string) | PostLoop

  datatype Result = Ok | Err(error: Error)

  predicate IsSubmitted(doc: Doc) {
    doc.status == 1
  }

  /** One pass of the loop: a result, or none to go round again. */
  function Attempt(turns: nat -> Turn, w: World, attempt: nat): (World, Option<Result>) {
    var (w1, latest) := Get(turns, w);
    match latest
    case Failure(m) => (w1, Some(Err(Server(m))))
    case Success(snapshot) =>
      if IsSubmitted(snapshot) then (w1, Some(Ok))
      else
        var (w2, posted) := Post(turns, w1, snapshot);
        match posted {
          case Success(_) => (w2, Some(Ok))
          case Failure(m) =>
            if attempt == 0 && Contains(m, MISMATCH) then (w2, None)
            else
              var (w3, again) := Get(turns, w2);
              if again.Success? && IsSubmitted(again.value) then (w3, Some(Ok)) else (w3, Some(Err(Server(m))))
        }
  }

  function Run(turns: nat -> Turn, w: World, attempt: nat): (World, Result)
    decreases 2 - attempt
  {
    if attempt >= 2 then (w, Err(PostLoop))
    else
      var (w1, result) := Attempt(turns, w, attempt);
      if result.Some? then (w1, result.value) else Run(turns, w1, attempt + 1)
  }

  method SubmitProductionDoc(turns: nat -> Turn, w0: World) returns (w: World, result: Result)
    ensures (w, result) == Run(turns, w0, 0)
  {
    w := w0;
    for attempt := 0 to 2
      invariant Run(turns, w, attempt) == Run(turns, w0, 0)
    {
      var (w1, latest) := Get(turns, w);
      w := w1;
      if latest.Failure? { return w, Err(Server(latest.message)); }
      if IsSubmitted(latest.value) { return w, Ok; }
      var (w2, posted) := Post(turns, w, latest.value);
      w := w2;
      if posted.Success? { return w, Ok; }
      if attempt == 0 && Contains(posted.message, MISMATCH) { continue; }
      var (w3, again) := Get(turns, w);
      w := w3;
      if again.Success? && IsSubmitted(again.value) { return w, Ok; }
      return w, Err(Server(posted.message));
    }
    return w, Err(PostLoop);
  }

  // ------------------------------------------------------------------ what is kept

  function CountPosts(log: seq<Exchange>): nat {
    if log == [] then 0 else CountPosts(log[..|log| - 1]) + if log[|log| - 1].Posted? then 1 else 0
  }

  function CountTaken(log: seq<Exchange>): nat {
    if log == [] then 0
    else CountTaken(log[..|log| - 1]) + if log[|log| - 1].Posted? && log[|log| - 1].took then 1 else 0
  }

  predicate AllAnswered(log: seq<Exchange>) {
    Got(None) !in log
  }

  lemma CountSnoc(log: seq<Exchange>, e: Exchange)
    ensures CountPosts(log + [e]) == CountPosts(log) + if e.Posted? then 1 else 0
    ensures CountTaken(log + [e]) == CountTaken(log) + if e.Posted? && e.took then 1 else 0
  {
    assert (log + [e])[..|log|] == log;
  }

  /** Nobody brings a document back to draft, nor a cancelled one back to submitted. */
  lemma {:induction false} StatusOnlyRises(doc: Doc, edits: seq<Edit>)
    requires 0 <= doc.status <= 2
    ensures doc.status <= EditedAll(doc, edits).status <= 2
    ensures CancelElsewhere !in edits && doc.status == 1 ==> EditedAll(doc, edits).status == 1
  {
    if edits != [] {
      assert edits == edits[..|edits| - 1] + [edits[|edits| - 1]];
      StatusOnlyRises(doc, edits[..|edits| - 1]);
    }
  }

  /** The world along a run: a post that took effect leaves the document submitted or cancelled. */
  predicate Consistent(w: World) {
    0 <= w.doc.status <= 2 && CountTaken(w.log) <= 1 && (CountTaken(w.log) == 1 ==> w.doc.status >= 1)
  }

  lemma GetKeeps(turns: nat -> Turn, w: World)
    requires Consistent(w)
    ensures var w1 := Get(turns, w).0;
            Consistent(w1) && CountPosts(w1.log) == CountPosts(w.log) && CountTaken(w1.log) == CountTaken(w.log)
  {
    StatusOnlyRises(w.doc, turns(w.clock).edits);
    var w1 := Get(turns, w).0;
    CountSnoc(w.log, w1.log[|w1.log| - 1]);
  }

  /** What a post does: it logs itself, and when it takes effect a draft becomes submitted. */
  lemma PostDoes(turns: nat -> Turn, w: World, snapshot: Doc) returns (e: Exchange)
    ensures var (w1, posted) := Post(turns, w, snapshot);
            var doc := EditedAll(w.doc, turns(w.clock).edits);
            && w1.log == w.log + [e] && e.Posted?
            && (if e.took then doc.status == 0 && w1.doc.status == 1 else w1.doc == doc)
            && (posted.Success? <==> e == Posted(true, None))
            && (posted.Failure? ==> e.failure == Some(posted.message))
  {
    var log := Post(turns, w, snapshot).0.log;
    e := log[|log| - 1];
  }

  lemma PostKeeps(turns: nat -> Turn, w: World, snapshot: Doc)
    requires Consistent(w)
    ensures var w1 := Post(turns, w, snapshot).0;
            && Consistent(w1) && CountPosts(w1.log) == CountPosts(w.log) + 1
            && (Post(turns, w, snapshot).1.Success? ==> w1.doc.status == 1 && CountTaken(w1.log) == 1)
  {
    var e := PostDoes(turns, w, snapshot);
    StatusOnlyRises(w.doc, turns(w.clock).edits);
    CountSnoc(w.log, e);
  }

  lemma AttemptKeeps(turns: nat -> Turn, w: World, attempt: nat)
    requires Consistent(w)
    ensures var (w1, result) := Attempt(turns, w, attempt);
            && Consistent(w1) && CountPosts(w1.log) <= CountPosts(w.log) + 1
            && (result == Some(Ok) ==> IsSubmitted(w1.doc))
            && (result.None? ==> attempt == 0)
            && (result.Some? ==> result.value != Err(PostLoop))
            && (result.Some? && result.value.Err? && AllAnswered(w1.log) ==> !IsSubmitted(w1.doc))
  {
    GetKeeps(turns, w);
    var (w1, latest) := Get(turns, w);
    if latest.Success? && !IsSubmitted(latest.value) {
      PostKeeps(turns, w1, latest.value);
      var (w2, posted) := Post(turns, w1, latest.value);
      if posted.Failure? && !(attempt == 0 && Contains(posted.message, MISMATCH)) { GetKeeps(turns, w2); }
    }
  }

  /** In every interleaving: success means the document is submitted at that moment; at most two
      posts are sent and at most one takes effect; the error after the loop is never returned; and
      when every read was answered, the result is success exactly when the document is submitted. */
  lemma SubmitIsSafe(turns: nat -> Turn, w0: World)
    requires 0 <= w0.doc.status <= 2 && w0.log == []
    ensures var (w, result) := Run(turns, w0, 0);
            && (result == Ok ==> IsSubmitted(w.doc))
            && CountPosts(w.log) <= 2 && CountTaken(w.log) <= 1
            && result != Err(PostLoop)
            && (AllAnswered(w.log) ==> (result == Ok <==> IsSubmitted(w.doc)))
  {
    AttemptKeeps(turns, w0, 0);
    var (w1, first) := Attempt(turns, w0, 0);
    if first.None? {
      AttemptKeeps(turns, w1, 1);
      assert Run(turns, w1, 1) == (Attempt(turns, w1, 1).0, Attempt(turns, w1, 1).1.value);
    }
  }

  lemma GetLogs(turns: nat -> Turn, w: World) returns (e: Exchange)
    ensures Get(turns, w).0.log == w.log + [e] && e.Got? && CountPosts(w.log + [e]) == CountPosts(w.log)
  {
    var log := Get(turns, w).0.log;
    e := log[|log| - 1];
    CountSnoc(w.log, e);
  }

  // ----------------------------------------------------------------- the short loops

  /** `submit_delivery_note` and `submit_stock_entry_draft`: no look before the post, no recheck. */
  function RunShort(turns: nat -> Turn, w: World, attempt: nat): (World, Result)
    decreases 2 - attempt
  {
    if attempt >= 2 then (w, Err(PostLoop))
    else
      var (w1, latest) := Get(turns, w);
      match latest
      case Failure(m) => (w1, Err(Server(m)))
      case Success(snapshot) =>
        var (w2, posted) := Post(turns, w1, snapshot);
        match posted {
          case Success(_) => (w2, Ok)
          case Failure(m) =>
            if attempt == 0 && Contains(m, MISMATCH) then RunShort(turns, w2, attempt + 1) else (w2, Err(Server(m)))
        }
  }

  /** The loop as written; its last error would be returned after the loop, here `PostLoop`. */
  method SubmitDeliveryNote(turns: nat -> Turn, w0: World) returns (w: World, result: Result)
    ensures (w, result) == RunShort(turns, w0, 0)
  {
    w := w0;
    for attempt := 0 to 2
      invariant RunShort(turns, w, attempt) == RunShort(turns, w0, 0)
    {
      var (w1, latest) := Get(turns, w);
      w := w1;
      if latest.Failure? { return w, Err(Server(latest.message)); }
      var (w2, posted) := Post(turns, w, latest.value);
      w := w2;
      if posted.Success? { return w, Ok; }
      if !(attempt == 0 && Contains(posted.message, MISMATCH)) { return w, Err(Server(posted.message)); }
    }
    return w, Err(PostLoop);
  }

  /** The short loops, too, never return the error after the loop, post at most twice, submit at
      most once, and succeed only on an acknowledged post of their own. */
  lemma ShortIsSafe(turns: nat -> Turn, w0: World)
    requires 0 <= w0.doc.status <= 2 && w0.log == []
    ensures var (w, result) := RunShort(turns, w0, 0);
            && result != Err(PostLoop)
            && CountPosts(w.log) <= 2 && CountTaken(w.log) <= 1
            && (result == Ok ==> IsSubmitted(w.doc) && CountTaken(w.log) == 1)
  {
    GetKeeps(turns, w0);
    var (w1, latest) := Get(turns, w0);
    if latest.Success? {
      PostKeeps(turns, w1, latest.value);
      var (w2, posted) := Post(turns, w1, latest.value);
      if posted.Failure? && Contains(posted.message, MISMATCH) {
        GetKeeps(turns, w2);
        var (w3, again) := Get(turns, w2);
        if again.Success? { PostKeeps(turns, w3, again.value); }
      }
    }
  }

  predicate TakenIn(log: seq<Exchange>) {
    exists e | e in log :: e.Posted? && e.took
  }

  lemma {:induction false} TakenCounts(log: seq<Exchange>)
    ensures CountTaken(log) > 0 <==> TakenIn(log)
  {
    if log != [] {
      var init, last := log[..|log| - 1], log[|log| - 1];
      TakenCounts(init);
      assert log == init + [last];
      assert last in log;
      assert forall e | e in init :: e in log;
    }
  }

  /** A log of whose posts at most one took effect reports it when the run's result says so. */
  ghost predicate Reported(log: seq<Exchange>, result: Result) {
    && (result == Ok <==> Posted(true, None) in log)
    && (forall e | e in log && e.Posted? && e.took :: result == Ok <==> e.failure.None?)
  }

  lemma ReportedBefore(log: seq<Exchange>, e: Exchange)
    requires e.Got? && Reported(log, Err(PostLoop))
    ensures Reported(log + [e], Err(PostLoop))
  {
  }

  /** One more post settles the result, when an earlier one that took effect lost its reply. */
  lemma ReportedAfter(log: seq<Exchange>, e: Exchange, result: Result)
    requires e.Posted? && Reported(log, Err(PostLoop)) && CountTaken(log + [e]) <= 1
    requires result == Ok <==> e == Posted(true, None)
    ensures Reported(log + [e], result)
  {
    CountSnoc(log, e);
    TakenCounts(log);
  }

  lemma AnyError(log: seq<Exchange>, a: Result, b: Result)
    requires a.Err? && b.Err? && Reported(log, a)
    ensures Reported(log, b)
  {
  }

  lemma {:induction false} ShortReportsFrom(turns: nat -> Turn, w: World, attempt: nat)
    requires Consistent(w) && Reported(w.log, Err(PostLoop))
    ensures var (after, result) := RunShort(turns, w, attempt); Reported(after.log, result)
    decreases 2 - attempt
  {
    if attempt < 2 {
      var g := GetLogs(turns, w);
      GetKeeps(turns, w);
      ReportedBefore(w.log, g);
      var (w1, latest) := Get(turns, w);
      match latest {
        case Failure(m) => AnyError(w1.log, Err(PostLoop), Err(Server(m)));
        case Success(snapshot) => ShortReportsPost(turns, w1, snapshot, attempt);
      }
    }
  }

  lemma ShortReportsPost(turns: nat -> Turn, w: World, snapshot: Doc, attempt: nat)
    requires attempt < 2 && Consistent(w) && Reported(w.log, Err(PostLoop))
    ensures var (w1, posted) := Post(turns, w, snapshot);
            match posted
            case Success(_) => Reported(w1.log, Ok)
            case Failure(m) =>
              Reported(w1.log, Err(Server(m)))
              && (attempt == 0 && Contains(m, MISMATCH) ==>
                    var (after, result) := RunShort(turns, w1, attempt + 1); Reported(after.log, result))
    decreases 2 - attempt, 0
  {
    PostKeeps(turns, w, snapshot);
    var e := PostDoes(turns, w, snapshot);
    var (w1, posted) := Post(turns, w, snapshot);
    match posted {
      case Success(_) => ReportedAfter(w.log, e, Ok);
      case Failure(m) =>
        ReportedAfter(w.log, e, Err(Server(m)));
        AnyError(w1.log, Err(Server(m)), Err(PostLoop));
        if attempt == 0 { ShortReportsFrom(turns, w1, attempt + 1); }
    }
  }

  /** The short loops succeed exactly when some post was acknowledged; and a post that took effect
      is reported exactly when its own reply arrived. */
  lemma ShortReportsExactly(turns: nat -> Turn, w0: World)
    requires 0 <= w0.doc.status <= 2 && w0.log == []
    ensures var (w, result) := RunShort(turns, w0, 0);
            && (result == Ok <==> Posted(true, None) in w.log)
            && (forall e | e in w.log && e.Posted? && e.took :: result == Ok <==> e.failure.None?)
  {
    ShortReportsFrom(turns, w0, 0);
  }

  /** Where the long loop reports success, the short ones report an error: a post that took effect
      and lost its reply. */
  lemma LostReply(w0: World, m: string)
    requires w0.doc.status == 0 && w0.log == [] && !Contains(m, MISMATCH)
    ensures var turns := (n: nat) => Turn([], if n == w0.clock + 1 then LostOut(m) else Answered);
            && Run(turns, w0, 0).1 == Ok && IsSubmitted(Run(turns, w0, 0).0.doc)
            && RunShort(turns, w0, 0).1 == Err(Server(m)) && IsSubmitted(RunShort(turns, w0, 0).0.doc)
  {
    var turns := (n: nat) => Turn([], if n == w0.clock + 1 then LostOut(m) else Answered);
    var w1 := Get(turns, w0).0;
    assert w1.doc == w0.doc && w1.clock == w0.clock + 1;
    var w2 := Post(turns, w1, w0.doc).0;
    assert w2.doc.status == 1 && w2.clock == w0.clock + 2;
    assert Get(turns, w2).1 == Success(w2.doc);
  }

  predicate NoCancel(turns: nat -> Turn, from: nat, to: nat) {
    forall n | from <= n < to :: CancelElsewhere !in turns(n).edits
  }

  lemma TakenStaysInRun(turns: nat -> Turn, w0: World)
    requires Consistent(w0)
    ensures Stays(turns, w0, Run(turns, w0, 0).0)
  {
    TakenStays(turns, w0, 0);
    AttemptKeeps(turns, w0, 0);
    var (w1, first) := Attempt(turns, w0, 0);
    if first.None? {
      AttemptKeeps(turns, w1, 1);
      TakenStays(turns, w1, 1);
      StaysOn(turns, w0, w1, Attempt(turns, w1, 1).0);
    }
  }

  /** A post that took effect is reported as success whenever the reads are answered and nobody
      cancels meanwhile. */
  lemma TakenIsReported(turns: nat -> Turn, w0: World)
    requires 0 <= w0.doc.status <= 2 && w0.log == []
    requires var w := Run(turns, w0, 0).0;
             AllAnswered(w.log) && CountTaken(w.log) == 1 && NoCancel(turns, w0.clock, w.clock)
    ensures Run(turns, w0, 0).1 == Ok
  {
    SubmitIsSafe(turns, w0);
    TakenStaysInRun(turns, w0);
  }

  predicate TakenSubmitted(w: World) {
    CountTaken(w.log) == 1 ==> w.doc.status == 1
  }

  /** Requests between two worlds keep what is taken, as long as nobody cancels meanwhile. */
  ghost predicate Stays(turns: nat -> Turn, w: World, after: World) {
    && w.clock <= after.clock
    && (NoCancel(turns, w.clock, after.clock) && TakenSubmitted(w) ==> TakenSubmitted(after))
  }

  lemma StaysOn(turns: nat -> Turn, a: World, b: World, c: World)
    requires Stays(turns, a, b) && Stays(turns, b, c)
    ensures Stays(turns, a, c)
  {
  }

  lemma GetStays(turns: nat -> Turn, w: World)
    requires Consistent(w)
    ensures Stays(turns, w, Get(turns, w).0) && Consistent(Get(turns, w).0)
  {
    StayGet(turns, w);
    GetKeeps(turns, w);
  }

  lemma PostStays(turns: nat -> Turn, w: World, snapshot: Doc)
    requires Consistent(w)
    ensures Stays(turns, w, Post(turns, w, snapshot).0) && Consistent(Post(turns, w, snapshot).0)
  {
    StayPost(turns, w, snapshot);
    PostKeeps(turns, w, snapshot);
  }

  lemma PostThenGetStays(turns: nat -> Turn, w: World, snapshot: Doc)
    requires Consistent(w)
    ensures var w1 := Post(turns, w, snapshot).0; Stays(turns, w, w1) && Stays(turns, w, Get(turns, w1).0)
  {
    PostStays(turns, w, snapshot);
    var w1 := Post(turns, w, snapshot).0;
    GetStays(turns, w1);
    StaysOn(turns, w, w1, Get(turns, w1).0);
  }

  lemma TakenStays(turns: nat -> Turn, w: World, attempt: nat)
    requires Consistent(w)
    ensures Stays(turns, w, Attempt(turns, w, attempt).0)
  {
    GetStays(turns, w);
    var (w1, latest) := Get(turns, w);
    if latest.Success? && !IsSubmitted(latest.value) {
      PostThenGetStays(turns, w1, latest.value);
      var w2 := Post(turns, w1, latest.value).0;
      StaysOn(turns, w, w1, w2);
      StaysOn(turns, w, w1, Get(turns, w2).0);
    }
  }

  lemma StayGet(turns: nat -> Turn, w: World)
    requires 0 <= w.doc.status <= 2
    ensures var w1 := Get(turns, w).0;
            w1.clock == w.clock + 1
            && (CancelElsewhere !in turns(w.clock).edits && TakenSubmitted(w) ==> TakenSubmitted(w1))
  {
    StatusOnlyRises(w.doc, turns(w.clock).edits);
    var w1 := Get(turns, w).0;
    CountSnoc(w.log, w1.log[|w1.log| - 1]);
  }

  lemma StayPost(turns: nat -> Turn, w: World, snapshot: Doc)
    requires 0 <= w.doc.status <= 2
    ensures var w1 := Post(turns, w, snapshot).0;
            w1.clock == w.clock + 1
            && (CancelElsewhere !in turns(w.clock).edits && TakenSubmitted(w) ==> TakenSubmitted(w1))
  {
    var e := PostDoes(turns, w, snapshot);
    StatusOnlyRises(w.doc, turns(w.clock).edits);
    CountSnoc(w.log, e);
  }

  // ------------------------------------------------------- the loops, read off their logs

  predicate SeenSubmitted(e: Exchange) {
    e.Got? && e.seen.Some? && e.seen.value.status == 1
  }

  /** A post that failed because the document had changed since it was read. */
  predicate Mismatched(e: Exchange) {
    e.Posted? && e.failure.Some? && Contains(e.failure.value, "TimestampMismatchError")
  }

  /** One pass of the long loop, by its exchanges: a failed read is the error; a submitted document is
      success; otherwise a post follows. An acknowledged post is success. A mismatch in the first pass
      ends the pass, without a result; any other failure is followed by a read, which makes it success
      when it finds the document submitted, and else the post's error stands. */
  ghost predicate LongPass(pass: seq<Exchange>, first: bool, lost: Fate, result: Option<Result>) {
    && pass != [] && pass[0].Got?
    && (pass[0].seen.None? ==> |pass| == 1 && !lost.Answered? && result == Some(Err(Server(lost.message))))
    && (SeenSubmitted(pass[0]) ==> |pass| == 1 && result == Some(Ok))
    && (pass[0].seen.Some? && !SeenSubmitted(pass[0]) ==> |pass| >= 2 && PostPart(pass[1..], first, result))
  }

  ghost predicate PostPart(part: seq<Exchange>, first: bool, result: Option<Result>) {
    && part != [] && part[0].Posted?
    && (part[0].failure.None? ==> |part| == 1 && result == Some(Ok))
    && (first && Mismatched(part[0]) ==> |part| == 1 && result == None)
    && (part[0].failure.Some? && !(first && Mismatched(part[0])) ==>
          && |part| == 2 && part[1].Got?
          && result == Some(if SeenSubmitted(part[1]) then Ok else Err(Server(part[0].failure.value))))
  }

  /** One pass of a short loop: no look at what was read, and no read after the post. */
  ghost predicate ShortPass(pass: seq<Exchange>, first: bool, lost: Fate, result: Option<Result>) {
    && pass != [] && pass[0].Got?
    && (pass[0].seen.None? ==> |pass| == 1 && !lost.Answered? && result == Some(Err(Server(lost.message))))
    && (pass[0].seen.Some? ==>
          && |pass| == 2 && pass[1].Posted?
          && result == match pass[1].failure
                       case None => Some(Ok)
                       case Some(m) => if first && Mismatched(pass[1]) then None else Some(Err(Server(m))))
  }

  lemma GetIs(turns: nat -> Turn, w: World) returns (e: Exchange)
    ensures var (w1, r) := Get(turns, w);
            && w1.log == w.log + [e] && w1.clock == w.clock + 1 && e.Got?
            && (r.Success? ==> e.seen == Some(r.value) && turns(w.clock).fate.Answered?)
            && (r.Failure? ==>
                  e.seen == None && !turns(w.clock).fate.Answered? && r.message == turns(w.clock).fate.message)
  {
    var log := Get(turns, w).0.log;
    e := log[|log| - 1];
  }

  lemma PostIs(turns: nat -> Turn, w: World, snapshot: Doc) returns (e: Exchange)
    ensures var (w1, r) := Post(turns, w, snapshot);
            && w1.log == w.log + [e] && w1.clock == w.clock + 1 && e.Posted?
            && (r.Success? ==> e.failure == None) && (r.Failure? ==> e.failure == Some(r.message))
  {
    e := PostDoes(turns, w, snapshot);
  }

  lemma LongPassIs(turns: nat -> Turn, w: World, attempt: nat) returns (pass: seq<Exchange>)
    ensures var (w1, result) := Attempt(turns, w, attempt);
            && w1.log == w.log + pass && w1.clock == w.clock + |pass|
            && LongPass(pass, attempt == 0, turns(w.clock).fate, result)
  {
    var (w1, latest) := Get(turns, w);
    var g := GetIs(turns, w);
    pass := [g];
    if latest.Success? && !IsSubmitted(latest.value) {
      var (w2, posted) := Post(turns, w1, latest.value);
      var p := PostIs(turns, w1, latest.value);
      pass := [g, p];
      assert w2.log == w.log + pass && pass[1..] == [p];
      if posted.Failure? && !(attempt == 0 && Contains(posted.message, MISMATCH)) {
        var h := GetIs(turns, w2);
        pass := [g, p, h];
        assert w2.log + [h] == w.log + pass && pass[1..] == [p, h];
      }
    }
  }

  /** What the long loop does in every interleaving, read off its log alone: a first pass and, after a
      mismatch and only then, a second one, each as `LongPass` says. */
  lemma LongLoopIs(turns: nat -> Turn, w0: World) returns (first: seq<Exchange>, second: seq<Exchange>)
    requires w0.log == []
    ensures var (w, result) := Run(turns, w0, 0);
            && w.log == first + second
            && ((second == [] && LongPass(first, true, turns(w0.clock).fate, Some(result)))
                || (LongPass(first, true, turns(w0.clock).fate, None)
                    && LongPass(second, false, turns(w0.clock + 2).fate, Some(result))))
  {
    first := LongPassIs(turns, w0, 0);
    second := [];
    var (w1, result) := Attempt(turns, w0, 0);
    if result.None? {
      second := LongPassIs(turns, w1, 1);
      assert Attempt(turns, w1, 1).1.Some?;
      assert Run(turns, w1, 1) == (Attempt(turns, w1, 1).0, Attempt(turns, w1, 1).1.value);
    }
  }

  lemma {:induction false} PostsOfBoth(a: seq<Exchange>, b: seq<Exchange>)
    ensures CountPosts(a + b) == CountPosts(a) + CountPosts(b)
  {
    if b == [] {
      assert a + b == a;
    } else {
      PostsOfBoth(a, b[..|b| - 1]);
      assert (a + b)[..|a + b| - 1] == a + b[..|b| - 1];
    }
  }

  lemma CountThree(a: Exchange, b: Exchange, c: Exchange)
    ensures CountPosts([a]) == if a.Posted? then 1 else 0
    ensures CountPosts([a, b]) == CountPosts([a]) + if b.Posted? then 1 else 0
    ensures CountPosts([a, b, c]) == CountPosts([a, b]) + if c.Posted? then 1 else 0
  {
    CountSnoc([], a);
    assert [] + [a] == [a];
    CountSnoc([a], b);
    assert [a] + [b] == [a, b];
    CountSnoc([a, b], c);
    assert [a, b] + [c] == [a, b, c];
  }

  lemma PassShape(pass: seq<Exchange>, first: bool, lost: Fate, result: Option<Result>)
    requires LongPass(pass, first, lost, result)
    ensures 1 <= |pass| <= 3 && pass[0].Got?
    ensures |pass| >= 2 ==> pass[1].Posted?
    ensures |pass| >= 3 ==> pass[2].Got?
    ensures result.None? ==> first && |pass| == 2 && Mismatched(pass[1])
  {
    assert |pass| >= 2 ==> pass[1..][0] == pass[1];
    assert |pass| >= 3 ==> pass[1..][1] == pass[2];
  }

  lemma PassPosts(pass: seq<Exchange>, first: bool, lost: Fate, result: Option<Result>)
    requires LongPass(pass, first, lost, result)
    ensures CountPosts(pass) == if |pass| >= 2 then 1 else 0
  {
    PassShape(pass, first, lost, result);
    if |pass| == 1 {
      CountThree(pass[0], pass[0], pass[0]);
      assert pass == [pass[0]];
    } else if |pass| == 2 {
      CountThree(pass[0], pass[1], pass[1]);
      assert pass == [pass[0], pass[1]];
    } else {
      CountThree(pass[0], pass[1], pass[2]);
      assert pass == [pass[0], pass[1], pass[2]];
    }
  }

  /** The loop goes round a second time only after the first post failed with a time stamp mismatch. */
  lemma RetryOnlyAfterMismatch(turns: nat -> Turn, w0: World)
    requires w0.log == [] && CountPosts(Run(turns, w0, 0).0.log) == 2
    ensures var log := Run(turns, w0, 0).0.log;
            |log| >= 4 && log[0].Got? && Mismatched(log[1]) && log[2].Got? && log[3].Posted?
  {
    var first, second := LongLoopIs(turns, w0);
    var result := Run(turns, w0, 0).1;
    PostsOfBoth(first, second);
    if second == [] {
      PassPosts(first, true, turns(w0.clock).fate, Some(result));
    } else {
      PassPosts(first, true, turns(w0.clock).fate, None);
      PassShape(first, true, turns(w0.clock).fate, None);
      PassShape(second, false, turns(w0.clock + 2).fate, Some(result));
      PassPosts(second, false, turns(w0.clock + 2).fate, Some(result));
    }
  }

  /** After a mismatch the loop reads again, and posts again unless it finds the document submitted. */
  lemma RetriesAfterMismatch(turns: nat -> Turn, w0: World)
    requires w0.log == []
    ensures var log := Run(turns, w0, 0).0.log;
            |log| >= 2 && Mismatched(log[1]) ==>
              && |log| >= 3 && log[2].Got?
              && (log[2].seen.Some? && log[2].seen.value.status != 1 ==> |log| >= 4 && log[3].Posted?)
  {
    var first, second := LongLoopIs(turns, w0);
    var log := Run(turns, w0, 0).0.log;
    if |log| >= 2 && Mismatched(log[1]) {
      assert |first| >= 2 ==> first[1] == log[1] && first[1..][0] == first[1];
      assert second != [] ==> second[0] == log[|first|];
      assert |second| >= 2 ==> second[1] == log[|first| + 1] && second[1..][0] == second[1];
    }
  }

  /** Nobody edits around these two requests, and both are answered. */
  predicate Quiet(turns: nat -> Turn, from: nat) {
    turns(from) == Turn([], Answered) && turns(from + 1) == Turn([], Answered)
  }

  lemma QuietRound(turns: nat -> Turn, w: World)
    requires w.doc.status == 0 && Quiet(turns, w.clock)
    ensures Get(turns, w).1 == Success(w.doc)
    ensures var (w2, posted) := Post(turns, Get(turns, w).0, w.doc); posted.Success? && w2.doc.status == 1
  {
  }

  /** When the read after a mismatch finds a draft that nobody edits any more and both requests are
      answered, the second post submits it and the loop reports success. */
  lemma RetrySucceeds(turns: nat -> Turn, w0: World)
    requires w0.log == [] && Quiet(turns, w0.clock + 2)
    requires var log := Run(turns, w0, 0).0.log;
             |log| >= 3 && Mismatched(log[1]) && log[2].Got? && log[2].seen.Some? && log[2].seen.value.status == 0
    ensures var (w, result) := Run(turns, w0, 0); result == Ok && w.doc.status == 1 && |w.log| == 4
  {
    var first := LongPassIs(turns, w0, 0);
    var (w1, result) := Attempt(turns, w0, 0);
    var log := Run(turns, w0, 0).0.log;
    assert result.Some? ==> log == first;
    assert |first| >= 2 ==> first[1..][0] == first[1];
    var e := GetIs(turns, w1);
    var second := LongPassIs(turns, w1, 1);
    assert log == first + second && log[2] == second[0];
    assert Get(turns, w1).0.log == w1.log + [e];
    SecondStarts(turns, w1, e, second);
    QuietRound(turns, w1);
  }

  lemma SecondStarts(turns: nat -> Turn, w: World, e: Exchange, pass: seq<Exchange>)
    requires Get(turns, w).0.log == w.log + [e] && pass != []
    requires Attempt(turns, w, 1).0.log == w.log + pass
    ensures pass[0] == e
  {
    var (w1, latest) := Get(turns, w);
    if latest.Success? && !IsSubmitted(latest.value) {
      var (w2, posted) := Post(turns, w1, latest.value);
      var p := PostIs(turns, w1, latest.value);
      if posted.Failure? { var h := GetIs(turns, w2); }
    }
    assert (w.log + [e]) <= Attempt(turns, w, 1).0.log;
    assert (w.log + pass)[|w.log|] == e;
  }

  lemma {:induction false} ShortLoopFrom(turns: nat -> Turn, w: World, attempt: nat)
    returns (pass: seq<Exchange>, rest: seq<Exchange>, result: Option<Result>)
    requires attempt < 2
    ensures ShortPass(pass, attempt == 0, turns(w.clock).fate, result)
    ensures result.Some? ==> rest == [] && RunShort(turns, w, attempt).1 == result.value
    ensures RunShort(turns, w, attempt).0.log == w.log + pass + rest
    ensures result.None? ==> attempt == 0 && |pass| == 2
    ensures result.None? ==> ShortPass(rest, false, turns(w.clock + 2).fate, Some(RunShort(turns, w, attempt).1))
    decreases 2 - attempt
  {
    var (w1, latest) := Get(turns, w);
    var g := GetIs(turns, w);
    pass, rest := [g], [];
    match latest {
      case Failure(m) => result := Some(Err(Server(m)));
      case Success(snapshot) =>
        var (w2, posted) := Post(turns, w1, snapshot);
        var p := PostIs(turns, w1, snapshot);
        pass := [g, p];
        assert w2.log == w.log + pass;
        match posted {
          case Success(_) => result := Some(Ok);
          case Failure(m) =>
            if attempt == 0 && Contains(m, MISMATCH) {
              result := None;
              var more, nothing, last := ShortLoopFrom(turns, w2, 1);
              rest := more;
              assert last.Some?;
            } else {
              result := Some(Err(Server(m)));
            }
        }
    }
  }

  /** What a short loop does in every interleaving, read off its log alone. */
  lemma ShortLoopIs(turns: nat -> Turn, w0: World) returns (first: seq<Exchange>, second: seq<Exchange>)
    requires w0.log == []
    ensures var (w, result) := RunShort(turns, w0, 0);
            && w.log == first + second
            && ((second == [] && ShortPass(first, true, turns(w0.clock).fate, Some(result)))
                || (ShortPass(first, true, turns(w0.clock).fate, None)
                    && ShortPass(second, false, turns(w0.clock + 2).fate, Some(result))))
  {
    var outcome;
    first, second, outcome := ShortLoopFrom(turns, w0, 0);
  }

  /** The short loops retry alike: after a mismatch they read again, and post again when that read is
      answered; and when it finds a draft nobody edits any more, the second post submits it. */
  lemma ShortRetries(turns: nat -> Turn, w0: World)
    requires w0.log == []
    ensures var (w, result) := RunShort(turns, w0, 0);
            |w.log| >= 2 && Mismatched(w.log[1]) ==>
              && |w.log| >= 3 && w.log[2].Got?
              && (w.log[2].seen.Some? ==> |w.log| == 4 && w.log[3].Posted?)
              && (w.log[2].seen.Some? && w.log[2].seen.value.status == 0 && Quiet(turns, w0.clock + 2) ==>
                    result == Ok && w.doc.status == 1)
  {
    var first, second := ShortLoopIs(turns, w0);
    var w := RunShort(turns, w0, 0).0;
    var (w1, latest) := Get(turns, w0);
    var g := GetIs(turns, w0);
    if latest.Success? {
      var (w2, posted) := Post(turns, w1, latest.value);
      var p := PostIs(turns, w1, latest.value);
      if posted.Failure? && Contains(posted.message, MISMATCH) {
        var h := GetIs(turns, w2);
        var (w3, again) := Get(turns, w2);
        if again.Success? && w2.doc.status == 0 && Quiet(turns, w2.clock) { QuietRound(turns, w2); }
        if again.Success? { var q := PostIs(turns, w3, again.value); }
      }
    }
  }

  /** A draft that is saved once more between the first read and the first post is submitted by the
      second post, in the long loop and in the short ones. */
  lemma SavedBetween(w0: World)
    requires w0.doc.status == 0 && w0.log == []
    ensures var turns := (n: nat) => Turn(if n == w0.clock + 1 then [Touch] else [], Answered);
            && Run(turns, w0, 0).1 == Ok && Run(turns, w0, 0).0.doc.status == 1
            && RunShort(turns, w0, 0).1 == Ok && RunShort(turns, w0, 0).0.doc.status == 1
  {
    var turns := (n: nat) => Turn(if n == w0.clock + 1 then [Touch] else [], Answered);
    var w1 := Get(turns, w0).0;
    assert w1.doc == w0.doc && w1.clock == w0.clock + 1;
    assert EditedAll(w1.doc, [Touch]) == Edited(w1.doc, Touch) by { assert [Touch][..0] == []; }
    var (w2, posted) := Post(turns, w1, w0.doc);
    assert w2.clock == w0.clock + 2 && w2.doc == Doc(0, w0.doc.stamp + 1);
    ReplyMentionsMismatch();
    assert posted == Failure(MISMATCH_REPLY);
    QuietRound(turns, w2);
  }

  lemma ReplyMentionsMismatch()
    ensures Contains(MISMATCH_REPLY, MISMATCH)
  {
    assert MISMATCH_REPLY == "status 417: " + MISMATCH + "";
    ContainsIntro(MISMATCH_REPLY, "status 417: ", MISMATCH, "");
  }
}
