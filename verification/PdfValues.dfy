/** The objects of ISO 32000-1, section 7.3, that a file without encryption or object streams is made
    of (names, whole numbers, references, arrays and dictionaries), with a parser for them. */
module PdfValues {
  import opened Text
  import opened Decimals
  import opened Sequences

  datatype Value =
    | Name(text: string)
    | Number(n: nat)
    | Reference(id: nat)
    | Array(items: Items)
    | Dictionary(pairs: Pairs)

  datatype Items = NoItems | Item(head: Value, tail: Items)

  datatype Pairs = NoPairs | Pair(key: string, value: Value, tail: Pairs)

  /** The value of a key; the first one when it is listed twice. */
  function Get(pairs: Pairs, key: string): Option<Value> {
    match pairs
    case NoPairs => None
    case Pair(k, v, tail) => if k == key then Some(v) else Get(tail, key)
  }

  /** The value of a key of a dictionary. */
  function Field(v: Value, key: string): Option<Value> {
    if v.Dictionary? then Get(v.pairs, key) else None
  }

  function NumberOf(v: Option<Value>): Option<nat> {
    if v.Some? && v.value.Number? then Some(v.value.n) else None
  }

  function ReferenceOf(v: Option<Value>): Option<nat> {
    if v.Some? && v.value.Reference? then Some(v.value.id) else None
  }

  /** The ids of an array of references. */
  function Ids(items: Items): Option<seq<nat>> {
    match items
    case NoItems => Some([])
    case Item(head, tail) =>
      match Ids(tail)
      case None => None
      case Some(ids) => if head.Reference? then Some([head.id] + ids) else None
  }

  // ------------------------------------------------------------------- characters

  /** White space of section 7.2.3. */
  predicate IsSpace(c: char) {
    c == 0 as char || c == '\t' || c == '\n' || c == 12 as char || c == '\r' || c == ' '
  }

  predicate IsDelimiter(c: char) {
    c == '(' || c == ')' || c == '<' || c == '>' || c == '[' || c == ']' || c == '{' || c == '}' || c == '/' || c == '%'
  }

  predicate IsRegular(c: char) {
    !IsSpace(c) && !IsDelimiter(c)
  }

  /** A token ends where the text does or where a character is no regular one. */
  predicate TokenEnds(rest: string) {
    rest == [] || !IsRegular(rest[0])
  }

  function Skip(s: string): (r: string)
    ensures |r| <= |s|
  {
    if s == [] || !IsSpace(s[0]) then s else Skip(s[1..])
  }

  function DigitRun(s: string): (n: nat)
    ensures n <= |s| && AllDigits(s[..n])
  {
    if s == [] || !IsDigit(s[0]) then 0
    else
      var n := DigitRun(s[1..]);
      assert s[..1 + n] == [s[0]] + s[1..][..n];
      1 + n
  }

  function RegularRun(s: string): (n: nat)
    ensures n <= |s|
  {
    if s == [] || !IsRegular(s[0]) then 0 else 1 + RegularRun(s[1..])
  }

  // ----------------------------------------------------------------------- parser

  datatype Read<T> = Read(value: T, rest: string)

  /** What follows a fixed text. */
  function Expect(s: string, head: string): (r: Option<string>)
    ensures r.Some? ==> |r.value| + |head| == |s|
  {
    if head <= s then Some(s[|head|..]) else None
  }

  function ReadNumber(s: string): (r: Option<Read<nat>>)
    ensures r.Some? ==> |r.value.rest| < |s|
  {
    var n := DigitRun(s);
    if n == 0 then None else Some(Read(DigitsValue(s[..n]), s[n..]))
  }

  /** A number and a fixed text behind it. */
  function ReadAmount(s: string, tail: string): Option<Read<nat>> {
    match ReadNumber(s)
    case None => None
    case Some(n) => match Expect(n.rest, tail) case None => None case Some(rest) => Some(Read(n.value, rest))
  }

  function ReadName(s: string): (r: Option<Read<string>>)
    ensures r.Some? ==> |r.value.rest| < |s|
  {
    if s == [] || s[0] != '/' then None
    else
      var n := RegularRun(s[1..]);
      Some(Read(s[1..][..n], s[1..][n..]))
  }

  /** A number, or the reference that begins with it. */
  function ReadNumeric(s: string): (r: Option<Read<Value>>)
    ensures r.Some? ==> |r.value.rest| < |s|
  {
    match ReadNumber(s)
    case None => None
    case Some(n) =>
      if " 0 R" <= n.rest && TokenEnds(n.rest[4..]) then Some(Read(Reference(n.value), n.rest[4..]))
      else Some(Read(Number(n.value), n.rest))
  }

  function ReadValue(s: string): (r: Option<Read<Value>>)
    ensures r.Some? ==> |r.value.rest| < |s|
    decreases |s|, 0
  {
    if s == [] then None
    else if s[0] == '/' then
      match ReadName(s) case None => None case Some(n) => Some(Read(Name(n.value), n.rest))
    else if s[0] == '[' then
      match ReadItems(s[1..]) case None => None case Some(list) => Some(Read(Array(list.value), list.rest))
    else if "<<" <= s then
      match ReadPairs(s[2..]) case None => None case Some(d) => Some(Read(Dictionary(d.value), d.rest))
    else ReadNumeric(s)
  }

  function ReadItems(s: string): (r: Option<Read<Items>>)
    ensures r.Some? ==> |r.value.rest| < |s|
    decreases |s|, 1
  {
    var t := Skip(s);
    if t == [] then None
    else if t[0] == ']' then Some(Read(NoItems, t[1..]))
    else
      match ReadValue(t)
      case None => None
      case Some(head) =>
        match ReadItems(head.rest)
        case None => None
        case Some(tail) => Some(Read(Item(head.value, tail.value), tail.rest))
  }

  function ReadPairs(s: string): (r: Option<Read<Pairs>>)
    ensures r.Some? ==> |r.value.rest| < |s|
    decreases |s|, 1
  {
    var t := Skip(s);
    if ">>" <= t then Some(Read(NoPairs, t[2..]))
    else
      match ReadName(t)
      case None => None
      case Some(key) =>
        match ReadValue(Skip(key.rest))
        case None => None
        case Some(value) =>
          match ReadPairs(value.rest)
          case None => None
          case Some(tail) => Some(Read(Pair(key.value, value.value, tail.value), tail.rest))
  }

  // ------------------------------------------------------------------ how values look

  /** A value as text, its parts set apart by single blanks. */
  function Show(v: Value): string {
    match v
    case Name(text) => "/" + text
    case Number(n) => NatText(n)
    case Reference(id) => NatText(id) + " 0 R"
    case Array(items) => "[" + ShowItems(items) + "]"
    case Dictionary(pairs) => "<<" + ShowPairs(pairs) + " >>"
  }

  function ShowItems(items: Items): string {
    match items
    case NoItems => ""
    case Item(head, tail) => if tail.NoItems? then Show(head) else Show(head) + (" " + ShowItems(tail))
  }

  function ShowPairs(pairs: Pairs): string {
    match pairs
    case NoPairs => ""
    case Pair(key, value, tail) => Paired(key, Show(value)) + ShowPairs(tail)
  }

  /** A key and its value as text. */
  function Paired(key: string, shown: string): string {
    " /" + key + (" " + shown)
  }

  predicate PlainName(name: string) {
    forall c | c in name :: IsRegular(c)
  }

  predicate Plain(v: Value) {
    match v
    case Name(text) => PlainName(text)
    case Number(n) => true
    case Reference(id) => true
    case Array(items) => PlainItems(items)
    case Dictionary(pairs) => PlainPairs(pairs)
  }

  predicate PlainItems(items: Items) {
    match items case NoItems => true case Item(head, tail) => Plain(head) && PlainItems(tail)
  }

  predicate PlainPairs(pairs: Pairs) {
    match pairs
    case NoPairs => true
    case Pair(key, value, tail) => PlainName(key) && Plain(value) && PlainPairs(tail)
  }

  // ----------------------------------------------------------------------- proofs

  lemma {:induction false} DigitRunStops(digits: string, rest: string)
    requires AllDigits(digits) && (rest == [] || !IsDigit(rest[0]))
    ensures DigitRun(digits + rest) == |digits|
  {
    if digits == [] {
      assert digits + rest == rest;
    } else {
      DigitRunStops(digits[1..], rest);
      assert (digits + rest)[1..] == digits[1..] + rest;
    }
  }

  lemma NumberReads(n: nat, rest: string)
    requires rest == [] || !IsDigit(rest[0])
    ensures ReadNumber(NatText(n) + rest) == Some(Read(n, rest))
  {
    var digits := NatText(n);
    DigitRunStops(digits, rest);
    assert (digits + rest)[..|digits|] == digits;
  }

  lemma ExpectReads(head: string, rest: string)
    ensures Expect(head + rest, head) == Some(rest)
  {
  }

  lemma AmountReads(n: nat, tail: string, rest: string)
    requires tail != [] && !IsDigit(tail[0])
    ensures ReadAmount(NatText(n) + (tail + rest), tail) == Some(Read(n, rest))
  {
    assert (tail + rest)[0] == tail[0];
    NumberReads(n, tail + rest);
    ExpectReads(tail, rest);
  }

  lemma {:induction false} RegularRunStops(name: string, rest: string)
    requires PlainName(name) && TokenEnds(rest)
    ensures RegularRun(name + rest) == |name|
  {
    if name == [] {
      assert name + rest == rest;
    } else {
      assert name[0] in name;
      RegularRunStops(name[1..], rest);
      assert (name + rest)[1..] == name[1..] + rest;
    }
  }

  lemma NameReads(name: string, rest: string)
    requires PlainName(name) && TokenEnds(rest)
    ensures ReadName("/" + name + rest) == Some(Read(name, rest))
  {
    RegularRunStops(name, rest);
    assert ("/" + name + rest)[1..] == name + rest;
    assert (name + rest)[..|name|] == name && (name + rest)[|name|..] == rest;
  }

  lemma SkipsOne(s: string)
    requires s == [] || !IsSpace(s[0])
    ensures Skip(" " + s) == s && Skip(s) == s
  {
    assert (" " + s)[1..] == s;
  }

  /** A value that is not white space in front and is no closing mark. */
  lemma ShowStarts(v: Value)
    ensures Show(v) != [] && !IsSpace(Show(v)[0]) && Show(v)[0] != ']' && Show(v)[0] != '>' && Show(v)[0] != 'R'
  {
    match v {
      case Number(n) => assert IsDigit(NatText(n)[0]);
      case Reference(id) => assert IsDigit(NatText(id)[0]);
      case Name(_) => case Array(_) => case Dictionary(_) =>
    }
  }

  /** Nothing that would carry a token on or make a number a reference. */
  predicate Apart(rest: string) {
    TokenEnds(rest) && !(" 0 R" <= rest)
  }

  lemma DigitsAreRegular(c: char)
    ensures IsDigit(c) ==> IsRegular(c) && c != '/' && c != '[' && c != '<'
  {
  }

  lemma NumericReads(n: nat, rest: string)
    requires Apart(rest)
    ensures ReadValue(NatText(n) + rest) == Some(Read(Number(n), rest))
  {
    if rest != [] { DigitsAreRegular(rest[0]); }
    NumberReads(n, rest);
    assert (NatText(n) + rest)[0] == NatText(n)[0];
    DigitsAreRegular(NatText(n)[0]);
  }

  lemma ReferenceReads(id: nat, rest: string)
    requires TokenEnds(rest)
    ensures ReadValue(NatText(id) + " 0 R" + rest) == Some(Read(Reference(id), rest))
  {
    Associate(NatText(id), " 0 R", rest);
    var more := " 0 R" + rest;
    NumberReads(id, more);
    assert more[4..] == rest;
    assert (NatText(id) + more)[0] == NatText(id)[0];
    DigitsAreRegular(NatText(id)[0]);
  }

  lemma ArrayAt(s: string, items: Items, rest: string)
    requires s != [] && s[0] == '[' && ReadItems(s[1..]) == Some(Read(items, rest))
    ensures ReadValue(s) == Some(Read(Array(items), rest))
  {
  }

  lemma Bracketed(inner: string, rest: string)
    ensures var s := "[" + inner + "]" + rest; s != [] && s[0] == '[' && s[1..] == inner + ("]" + rest)
  {
    assert "[" + inner + "]" + rest == ['['] + (inner + ("]" + rest));
  }

  lemma ArrayReads(items: Items, inner: string, rest: string)
    requires ReadItems(inner + ("]" + rest)) == Some(Read(items, rest))
    ensures ReadValue("[" + inner + "]" + rest) == Some(Read(Array(items), rest))
  {
    Bracketed(inner, rest);
    ArrayAt("[" + inner + "]" + rest, items, rest);
  }

  lemma DictionaryAt(s: string, pairs: Pairs, rest: string)
    requires "<<" <= s && ReadPairs(s[2..]) == Some(Read(pairs, rest))
    ensures ReadValue(s) == Some(Read(Dictionary(pairs), rest))
  {
  }

  lemma Angled(inner: string, rest: string)
    ensures var s := "<<" + inner + " >>" + rest; "<<" <= s && s[2..] == inner + (" >>" + rest)
  {
    assert "<<" + inner + " >>" + rest == "<<" + (inner + (" >>" + rest));
  }

  lemma DictionaryReads(pairs: Pairs, inner: string, rest: string)
    requires ReadPairs(inner + (" >>" + rest)) == Some(Read(pairs, rest))
    ensures ReadValue("<<" + inner + " >>" + rest) == Some(Read(Dictionary(pairs), rest))
  {
    Angled(inner, rest);
    DictionaryAt("<<" + inner + " >>" + rest, pairs, rest);
  }

  /** A value printed with single blanks is parsed back, and the parser stops right behind it. */
  lemma {:induction false} ValueReads(v: Value, rest: string)
    requires Plain(v) && Apart(rest)
    ensures ReadValue(Show(v) + rest) == Some(Read(v, rest))
    decreases v
  {
    match v {
      case Name(text) => NameReads(text, rest);
      case Number(n) => NumericReads(n, rest);
      case Reference(id) => ReferenceReads(id, rest);
      case Array(items) => ItemsRead(items, rest); ArrayReads(items, ShowItems(items), rest);
      case Dictionary(pairs) => PairsRead(pairs, rest); DictionaryReads(pairs, ShowPairs(pairs), rest);
    }
  }

  lemma ItemsStep(head: Value, tail: Items, after: string, rest: string)
    requires ReadValue(Show(head) + after) == Some(Read(head, after))
    requires ReadItems(after) == Some(Read(tail, rest))
    ensures ReadItems(Show(head) + after) == Some(Read(Item(head, tail), rest))
  {
    ShowStarts(head);
    SkipsOne(Show(head) + after);
  }

  lemma BlankSkipped(items: Items, rest: string)
    requires items.Item?
    ensures ReadItems(" " + (ShowItems(items) + rest)) == ReadItems(ShowItems(items) + rest)
  {
    ShowStarts(items.head);
    assert ShowItems(items)[0] == Show(items.head)[0];
    SkipsOne(ShowItems(items) + rest);
  }

  lemma TailPrefix(c: char, a: string, b: string)
    ensures [c] + a <= [c] + b <==> a <= b
  {
    assert ([c] + a)[1..] == a && ([c] + b)[1..] == b;
  }

  /** Two numbers in a row are not taken for a reference. */
  lemma NotZeroR(v: Value, after: string)
    requires after != [] && (after[0] == ']' || (after[0] == ' ' && |after| > 1 && after[1] != 'R'))
    ensures !("0 R" <= Show(v) + after)
  {
    var first := Show(v);
    var s := first + after;
    ShowStarts(v);
    assert s[0] == first[0];
    match v {
      case Number(n) =>
        assert |first| > 1 ==> s[1] == first[1] && IsDigit(NatText(n)[1]);
        assert |first| == 1 ==> s[1] == after[0];
        assert |first| == 1 && |after| > 1 ==> s[2] == after[1];
      case Reference(id) =>
        assert |NatText(id)| > 1 ==> s[1] == NatText(id)[1] && IsDigit(NatText(id)[1]);
        assert |NatText(id)| == 1 ==> s[2] == '0';
      case Name(_) => case Array(_) => case Dictionary(_) =>
    }
  }

  lemma ItemsNotZeroR(items: Items, rest: string)
    requires items.Item?
    ensures !("0 R" <= ShowItems(items) + ("]" + rest))
  {
    if items.tail.NoItems? {
      NotZeroR(items.head, "]" + rest);
    } else {
      var after := " " + (ShowItems(items.tail) + ("]" + rest));
      ShowStarts(items.tail.head);
      assert after[1] == Show(items.tail.head)[0];
      NotZeroR(items.head, after);
      assert ShowItems(items) + ("]" + rest) == Show(items.head) + after;
    }
  }

  lemma ItemsApart(items: Items, rest: string)
    requires items.Item?
    ensures Apart(" " + (ShowItems(items) + ("]" + rest)))
  {
    ItemsNotZeroR(items, rest);
    TailPrefix(' ', "0 R", ShowItems(items) + ("]" + rest));
    assert " 0 R" == [' '] + "0 R";
  }

  lemma {:induction false} ItemsRead(items: Items, rest: string)
    requires PlainItems(items)
    ensures ReadItems(ShowItems(items) + ("]" + rest)) == Some(Read(items, rest))
    decreases items
  {
    match items {
      case NoItems =>
        assert "" + ("]" + rest) == "]" + rest;
        assert ("]" + rest)[1..] == rest;
      case Item(head, tail) =>
        if tail.NoItems? {
          ItemsRead(tail, rest);
          ValueReads(head, "]" + rest);
          ItemsStep(head, tail, "]" + rest, rest);
        } else {
          var more := ShowItems(tail) + ("]" + rest);
          ItemsRead(tail, rest);
          BlankSkipped(tail, "]" + rest);
          ItemsApart(tail, rest);
          ValueReads(head, " " + more);
          ItemsStep(head, tail, " " + more, rest);
          assert ShowItems(items) + ("]" + rest) == Show(head) + (" " + more);
        }
    }
  }

  lemma PairAt(t: string, key: Read<string>, value: Read<Value>, tail: Read<Pairs>)
    requires !(">>" <= t) && (t == [] || !IsSpace(t[0])) && ReadName(t) == Some(key)
    requires ReadValue(Skip(key.rest)) == Some(value) && ReadPairs(value.rest) == Some(tail)
    ensures ReadPairs(" " + t) == Some(Read(Pair(key.value, value.value, tail.value), tail.rest))
  {
    SkipsOne(t);
  }

  lemma KeyAndValue(key: string, shown: string, after: string)
    ensures Paired(key, shown) + after == " " + ("/" + key + (" " + (shown + after)))
  {
  }

  lemma PairText(key: string, value: Value, more: string, tail: Pairs, after: string, rest: string)
    requires PlainName(key) && (more == [] || !IsSpace(more[0])) && ReadValue(more) == Some(Read(value, after))
    requires ReadPairs(after) == Some(Read(tail, rest))
    ensures ReadPairs(" " + ("/" + key + (" " + more))) == Some(Read(Pair(key, value, tail), rest))
  {
    NameReads(key, " " + more);
    SkipsOne(more);
    PairAt("/" + key + (" " + more), Read(key, " " + more), Read(value, after), Read(tail, rest));
  }

  lemma PairsStep(key: string, value: Value, tail: Pairs, after: string, rest: string)
    requires PlainName(key)
    requires ReadValue(Show(value) + after) == Some(Read(value, after))
    requires ReadPairs(after) == Some(Read(tail, rest))
    ensures ReadPairs(Paired(key, Show(value)) + after) == Some(Read(Pair(key, value, tail), rest))
  {
    ShowStarts(value);
    PairText(key, value, Show(value) + after, tail, after, rest);
    KeyAndValue(key, Show(value), after);
  }

  lemma PairsApart(pairs: Pairs, rest: string)
    ensures Apart(ShowPairs(pairs) + (" >>" + rest))
  {
    var s := ShowPairs(pairs) + (" >>" + rest);
    assert s[0] == ' ' && s[1] != '0';
  }

  lemma {:induction false} PairsRead(pairs: Pairs, rest: string)
    requires PlainPairs(pairs)
    ensures ReadPairs(ShowPairs(pairs) + (" >>" + rest)) == Some(Read(pairs, rest))
    decreases pairs
  {
    match pairs {
      case NoPairs =>
        assert "" + (" >>" + rest) == " " + (">>" + rest);
        SkipsOne(">>" + rest);
        assert (">>" + rest)[2..] == rest;
      case Pair(key, value, tail) =>
        var after := ShowPairs(tail) + (" >>" + rest);
        PairsRead(tail, rest);
        PairsApart(tail, rest);
        ValueReads(value, after);
        PairsStep(key, value, tail, after, rest);
        Associate(Paired(key, Show(value)), ShowPairs(tail), " >>" + rest);
    }
  }
}
