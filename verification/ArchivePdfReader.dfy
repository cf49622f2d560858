/** A reader for PDF files with a plain cross-reference table, following ISO 32000-1: the end mark and
    startxref, the table (7.5.4), the trailer (7.5.5), the catalog and the page tree (7.7.2, 7.7.3),
    fonts (9.6.2), streams by their Length (7.3.8) and text objects (9.4). Reading a written file
    gives back, page by page, the page's size, its font and the shown lines in their places. */
module ArchivePdfReader {
  import opened Text
  import opened Decimals
  import opened Sequences
  import opened PdfValues
  import opened PdfText
  import opened ArchivePdf

  const ENTRY_LENGTH := 20
  const OFFSET_DIGITS := 10

  // ---------------------------------------------------- end mark, table and trailer

  function LastDigits(s: string): (n: nat)
    ensures n <= |s| && AllDigits(s[|s| - n..])
  {
    if s == [] || !IsDigit(s[|s| - 1]) then 0 else 1 + LastDigits(s[..|s| - 1])
  }

  predicate EndsWith(s: string, tail: string) {
    |tail| <= |s| && s[|s| - |tail|..] == tail
  }

  /** The number between `head` and `tail` at the very end of the file. */
  function LastField(doc: string, head: string, tail: string): Option<nat> {
    if !EndsWith(doc, tail) then None
    else
      var front := doc[..|doc| - |tail|];
      var n := LastDigits(front);
      if n == 0 || !EndsWith(front[..|front| - n], head) then None
      else Some(DigitsValue(front[|front| - n..]))
  }

  /** An opened file: the text from the first table entry on, the number of entries, the root. */
  datatype Opened = Opened(doc: string, table: string, count: nat, root: nat)

  /** The root named by a trailer that counts as many entries as the table. */
  function RootOf(trailer: Value, count: nat): Option<nat> {
    if NumberOf(Field(trailer, "Size")) == Some(count) then ReferenceOf(Field(trailer, "Root"))
    else None
  }

  function ReadTrailer(s: string, count: nat): Option<nat> {
    match Expect(s, "trailer\n")
    case None => None
    case Some(dictionary) =>
      match ReadValue(dictionary) case None => None case Some(trailer) => RootOf(trailer.value, count)
  }

  /** The table begins with the free entry that heads every table. */
  predicate FreeFirst(table: string) {
    |table| >= ENTRY_LENGTH && table[..ENTRY_LENGTH] == "0000000000 65535 f \n"
  }

  function OpenTable(doc: string, table: string, count: nat): Option<Opened> {
    if ENTRY_LENGTH * count > |table| || !FreeFirst(table) then None
    else
      match ReadTrailer(table[ENTRY_LENGTH * count..], count)
      case None => None
      case Some(root) => Some(Opened(doc, table, count, root))
  }

  function OpenAt(doc: string, section: string): Option<Opened> {
    match Expect(section, "xref\n0 ")
    case None => None
    case Some(s) =>
      match ReadAmount(s, "\n")
      case None => None
      case Some(count) => OpenTable(doc, count.rest, count.value)
  }

  function Open(doc: string): Option<Opened> {
    if !("%PDF-1.4\n" <= doc) then None
    else
      match LastField(doc, "startxref\n", "\n%%EOF\n")
      case None => None
      case Some(start) => if start > |doc| then None else OpenAt(doc, doc[start..])
  }

  /** The offset in a table entry of twenty characters, of an object in use. */
  function EntryOffset(entry: string): Option<nat> {
    if |entry| == ENTRY_LENGTH && AllDigits(entry[..OFFSET_DIGITS]) && entry[OFFSET_DIGITS..] == " 00000 n \n"
    then Some(DigitsValue(entry[..OFFSET_DIGITS]))
    else None
  }

  function Slot(entries: string, id: nat): string
    requires ENTRY_LENGTH * id + ENTRY_LENGTH <= |entries|
  {
    entries[ENTRY_LENGTH * id..ENTRY_LENGTH * id + ENTRY_LENGTH]
  }

  function Lookup(o: Opened, id: nat): Option<nat> {
    if id >= o.count || ENTRY_LENGTH * id + ENTRY_LENGTH > |o.table| then None
    else EntryOffset(Slot(o.table, id))
  }

  /** The text from an object's first character on, found through the table. */
  function Find(o: Opened, id: nat): Option<string> {
    match Lookup(o, id)
    case None => None
    case Some(offset) =>
      if offset > |o.doc| then None else Expect(o.doc[offset..], NatText(id) + " 0 obj\n")
  }

  // ---------------------------------------------------------------------- objects

  /** An object that is a value and nothing more. */
  function ReadObject(o: Opened, id: nat): Option<Value> {
    match Find(o, id)
    case None => None
    case Some(s) =>
      match ReadValue(s)
      case None => None
      case Some(v) => if "\nendobj\n" <= v.rest then Some(v.value) else None
  }

  function ReadReferenced(o: Opened, reference: Option<Value>): Option<Value> {
    match ReferenceOf(reference) case None => None case Some(id) => ReadObject(o, id)
  }

  predicate HasType(v: Value, name: string) {
    Field(v, "Type") == Some(Name(name))
  }

  /** The base font of a Type 1 font object. */
  function BaseFont(font: Option<Value>): Option<string> {
    match font
    case None => None
    case Some(v) =>
      if HasType(v, "Font") && Field(v, "Subtype") == Some(Name("Type1")) then
        match Field(v, "BaseFont") { case Some(Name(text)) => Some(text) case _ => None }
      else None
  }

  /** The object behind a font's name in a page's resources. */
  function FontResource(page: Value, font: string): Option<Value> {
    match Field(page, "Resources")
    case None => None
    case Some(resources) =>
      match Field(resources, "Font") case None => None case Some(fonts) => Field(fonts, font)
  }

  /** Width and height of a box whose corner is the origin. */
  function BoxSize(box: Option<Value>): Option<(nat, nat)> {
    match box
    case Some(Array(Item(Number(x), Item(Number(y), Item(Number(width), Item(Number(height), NoItems)))))) =>
      if x == 0 && y == 0 then Some((width, height)) else None
    case _ => None
  }

  /** A stream: as many characters as Length says, then its end mark. */
  function Delimited(data: string, length: nat): Option<string> {
    if length <= |data| && "\nendstream\nendobj\n" <= data[length..] then Some(data[..length]) else None
  }

  function ReadContent(s: string): Option<string> {
    match ReadValue(s)
    case None => None
    case Some(v) =>
      match NumberOf(Field(v.value, "Length"))
      case None => None
      case Some(length) =>
        match Expect(v.rest, "\nstream\n")
        case None => None
        case Some(data) => Delimited(data, length)
  }

  function ReadText(o: Opened, contents: Option<Value>): Option<TextBlock> {
    match ReferenceOf(contents)
    case None => None
    case Some(id) =>
      match Find(o, id)
      case None => None
      case Some(s) => match ReadContent(s) case None => None case Some(stream) => ReadStream(stream)
  }

  /** A page: its size, the font its text is set in, and the text. */
  datatype Page = Page(width: nat, height: nat, font: string, text: TextBlock)

  function Assembled(box: Option<(nat, nat)>, font: Option<string>, text: TextBlock): Option<Page> {
    if box.Some? && font.Some? then Some(Page(box.value.0, box.value.1, font.value, text)) else None
  }

  function PageFrom(o: Opened, page: Value): Option<Page> {
    match ReadText(o, Field(page, "Contents"))
    case None => None
    case Some(text) =>
      var font := BaseFont(ReadReferenced(o, FontResource(page, text.font)));
      Assembled(BoxSize(Field(page, "MediaBox")), font, text)
  }

  /** A page that names the tree it is listed in as its parent. */
  function ReadPage(o: Opened, tree: nat, id: nat): Option<Page> {
    match ReadObject(o, id)
    case None => None
    case Some(page) =>
      if HasType(page, "Page") && Field(page, "Parent") == Some(Reference(tree)) then PageFrom(o, page)
      else None
  }

  function ReadEach(ids: seq<nat>, read: nat -> Option<Page>): Option<seq<Page>> {
    if ids == [] then Some([])
    else
      match ReadEach(ids[..|ids| - 1], read)
      case None => None
      case Some(pages) =>
        match read(ids[|ids| - 1]) case None => None case Some(page) => Some(pages + [page])
  }

  function PageReader(o: Opened, tree: nat): nat -> Option<Page> {
    (id: nat) => ReadPage(o, tree, id)
  }

  /** The kids of a page tree's root, when Count is their number. */
  function KidsOf(tree: Value): Option<seq<nat>> {
    match Field(tree, "Kids")
    case Some(Array(items)) =>
      if HasType(tree, "Pages") && Ids(items).Some? && NumberOf(Field(tree, "Count")) == Some(|Ids(items).value|)
      then Ids(items) else None
    case _ => None
  }

  function ReadTree(o: Opened, tree: nat): Option<seq<Page>> {
    match ReadObject(o, tree)
    case None => None
    case Some(v) => match KidsOf(v) case None => None case Some(ids) => ReadEach(ids, PageReader(o, tree))
  }

  function TreeOf(catalog: Option<Value>): Option<nat> {
    if catalog.Some? && HasType(catalog.value, "Catalog") then ReferenceOf(Field(catalog.value, "Pages"))
    else None
  }

  function ReadOpened(o: Opened): Option<seq<Page>> {
    match TreeOf(ReadObject(o, o.root)) case None => None case Some(tree) => ReadTree(o, tree)
  }

  /** The pages of a file. */
  function ReadDocument(doc: string): Option<seq<Page>> {
    match Open(doc) case None => None case Some(o) => ReadOpened(o)
  }

  // ---------------------------------------------------------- proofs: the table

  lemma {:induction false} DigitsBelow(s: string)
    requires AllDigits(s)
    ensures DigitsValue(s) < Pow10(|s|)
  {
    if s != [] {
      DigitsBelow(s[..|s| - 1]);
    }
  }

  lemma {:induction false} Pow10Grows(i: nat, j: nat)
    requires i <= j
    ensures Pow10(i) <= Pow10(j)
  {
    if i < j { Pow10Grows(i, j - 1); }
  }

  /** A table entry is twenty bytes exactly while its offset stays under ten digits' reach. */
  lemma EntryIsTwentyBytes(offset: nat)
    ensures |Entry(offset)| == ENTRY_LENGTH <==> offset < Pow10(OFFSET_DIGITS)
    ensures offset < Pow10(OFFSET_DIGITS) ==> EntryOffset(Entry(offset)) == Some(offset)
  {
    var digits := ZeroPadded(offset, OFFSET_DIGITS);
    assert |ENTRY_TAIL| == 10;
    if offset < Pow10(OFFSET_DIGITS) {
      assert Entry(offset)[..OFFSET_DIGITS] == digits;
      assert Entry(offset)[OFFSET_DIGITS..] == ENTRY_TAIL;
    } else {
      DigitsBelow(digits);
      if |digits| <= OFFSET_DIGITS { Pow10Grows(|digits|, OFFSET_DIGITS); }
    }
  }

  lemma {:induction false} BodyHolds(objects: seq<string>, id: nat, last: nat) returns (after: string)
    requires 1 <= id <= last < |objects|
    ensures Body(objects, last) == Body(objects, id - 1) + (ObjectBytes(id, objects[id]) + after)
  {
    if id == last {
      after := "";
      assert ObjectBytes(id, objects[id]) + "" == ObjectBytes(id, objects[id]);
    } else {
      var before := BodyHolds(objects, id, last - 1);
      var added := ObjectBytes(last, objects[last]);
      after := before + added;
      Associate(Body(objects, id - 1), ObjectBytes(id, objects[id]) + before, added);
      Associate(ObjectBytes(id, objects[id]), before, added);
    }
  }

  /** The last object starts early enough for every offset to fit its ten digits. */
  predicate OffsetsFit(objects: seq<string>)
    requires |objects| >= 2
  {
    Offset(objects, |objects| - 1) < Pow10(OFFSET_DIGITS)
  }

  lemma {:induction false} BodyGrows(objects: seq<string>, i: nat, j: nat)
    requires i <= j < |objects|
    ensures |Body(objects, i)| <= |Body(objects, j)|
  {
    if i < j { BodyGrows(objects, i, j - 1); }
  }

  lemma FitsEach(objects: seq<string>, id: nat)
    requires |objects| >= 2 && 1 <= id < |objects| && OffsetsFit(objects)
    ensures Offset(objects, id) < Pow10(OFFSET_DIGITS)
  {
    BodyGrows(objects, id - 1, |objects| - 2);
  }

  lemma SlotNext(entries: string, last: nat, entry: string, id: nat)
    requires last > 0 && |entries| == ENTRY_LENGTH * last && |entry| == ENTRY_LENGTH
    requires id <= last
    ensures |entries + entry| == ENTRY_LENGTH * (last + 1)
    ensures Slot(entries + entry, id) == if id == last then entry else Slot(entries, id)
  {
  }

  lemma FreeEntryLength()
    ensures |FREE_ENTRY| == ENTRY_LENGTH
  {
  }

  /** The table after one more entry. */
  lemma TableNext(table: string, last: nat, offset: nat)
    requires last > 0 && |table| == ENTRY_LENGTH * last && offset < Pow10(OFFSET_DIGITS)
    ensures |table + Entry(offset)| == ENTRY_LENGTH * (last + 1)
    ensures Slot(table + Entry(offset), last) == Entry(offset)
  {
    EntryIsTwentyBytes(offset);
    SlotNext(table, last, Entry(offset), last);
  }

  lemma {:induction false} TableLength(objects: seq<string>, last: nat)
    requires |objects| >= 2 && OffsetsFit(objects) && last < |objects|
    ensures |Entries(objects, last)| == ENTRY_LENGTH * (last + 1)
  {
    if last == 0 {
      FreeEntryLength();
    } else {
      TableLength(objects, last - 1);
      FitsEach(objects, last);
      TableNext(Entries(objects, last - 1), last, Offset(objects, last));
    }
  }

  lemma {:induction false} EntryAt(objects: seq<string>, id: nat, last: nat)
    requires |objects| >= 2 && OffsetsFit(objects)
    requires 1 <= id <= last < |objects|
    ensures |Entries(objects, last)| == ENTRY_LENGTH * (last + 1)
    ensures Slot(Entries(objects, last), id) == Entry(Offset(objects, id))
  {
    TableLength(objects, last - 1);
    TableLength(objects, last);
    FitsEach(objects, last);
    var entry := Entry(Offset(objects, last));
    if id == last {
      TableNext(Entries(objects, last - 1), last, Offset(objects, last));
    } else {
      EntryAt(objects, id, last - 1);
      EntryIsTwentyBytes(Offset(objects, last));
      SlotNext(Entries(objects, last - 1), last, entry, id);
    }
  }

  // ----------------------------------------------------------- proofs: opening

  lemma {:induction false} LastDigitsStop(before: string, digits: string)
    requires AllDigits(digits) && (before == [] || !IsDigit(before[|before| - 1]))
    ensures LastDigits(before + digits) == |digits|
  {
    if digits == [] {
      assert before + digits == before;
    } else {
      var init := digits[..|digits| - 1];
      LastDigitsStop(before, init);
      assert (before + digits)[..|before + digits| - 1] == before + init;
    }
  }

  lemma Ends(front: string, tail: string)
    ensures EndsWith(front + tail, tail)
    ensures (front + tail)[..|front + tail| - |tail|] == front
    ensures (front + tail)[|front + tail| - |tail|..] == tail
  {
  }

  lemma LastFieldReads(front: string, head: string, n: nat, tail: string)
    requires head != [] && !IsDigit(head[|head| - 1])
    ensures LastField(front + (head + NatText(n) + tail), head, tail) == Some(n)
  {
    var before, digits := front + head, NatText(n);
    Associate(front, head + digits, tail);
    Associate(front, head, digits);
    Ends(before + digits, tail);
    Ends(before, digits);
    Ends(front, head);
    LastDigitsStop(before, digits);
  }

  // ------------------------------------------------------ proofs: the written values

  function CatalogValue(): Value {
    Dictionary(Pair("Type", Name("Catalog"), Pair("Pages", Reference(2), NoPairs)))
  }

  function FontValue(): Value {
    Dictionary(Pair("Type", Name("Font"), Pair("Subtype", Name("Type1"), Pair("BaseFont", Name("Courier"), NoPairs))))
  }

  function References(ids: seq<nat>): Items {
    if ids == [] then NoItems else Item(Reference(ids[0]), References(ids[1..]))
  }

  function PagesValue(ids: seq<nat>): Value {
    Dictionary(Pair("Type", Name("Pages"), Pair("Kids", Array(References(ids)), Pair("Count", Number(|ids|), NoPairs))))
  }

  function BoxValue(): Value {
    Array(Item(Number(0), Item(Number(0), Item(Number(842), Item(Number(595), NoItems)))))
  }

  function ResourcesValue(): Value {
    Dictionary(Pair("Font", Dictionary(Pair("F1", Reference(3), NoPairs)), NoPairs))
  }

  function PageValue(content: nat): Value {
    Dictionary(Pair("Type", Name("Page"), Pair("Parent", Reference(2), Pair("MediaBox", BoxValue(),
               Pair("Resources", ResourcesValue(), Pair("Contents", Reference(content), NoPairs))))))
  }

  function LengthValue(length: nat): Value {
    Dictionary(Pair("Length", Number(length), NoPairs))
  }

  function TrailerValue(size: nat): Value {
    Dictionary(Pair("Size", Number(size), Pair("Root", Reference(1), NoPairs)))
  }

  lemma SmallNumbers()
    ensures NatText(0) == "0" && NatText(1) == "1" && NatText(2) == "2" && NatText(3) == "3"
    ensures NatText(842) == "842" && NatText(595) == "595"
  {
    assert NatText(84) == NatText(8) + "4" && NatText(8) == "8";
    assert NatText(59) == NatText(5) + "9" && NatText(5) == "5";
  }

  lemma LastPair(key: string, v: Value)
    ensures ShowPairs(Pair(key, v, NoPairs)) == Paired(key, Show(v))
  {
    assert ShowPairs(NoPairs) == "";
  }

  lemma MorePairs(key: string, v: Value, tail: Pairs)
    ensures ShowPairs(Pair(key, v, tail)) == Paired(key, Show(v)) + ShowPairs(tail)
  {
  }

  lemma DictionaryText(pairs: Pairs, inner: string)
    requires ShowPairs(pairs) == inner
    ensures Show(Dictionary(pairs)) == "<<" + inner + " >>"
  {
  }

  lemma CatalogTexts()
    ensures Paired("Type", "/Catalog") == " /Type /Catalog" && Paired("Pages", "2 0 R") == " /Pages 2 0 R"
    ensures CATALOG_HEAD == "<<" + (" /Type /Catalog" + " /Pages ")
  {
  }

  lemma CatalogNames()
    ensures PlainName("Type") && PlainName("Catalog") && PlainName("Pages")
  {
  }

  lemma CatalogPlain()
    ensures Plain(CatalogValue())
  {
    CatalogNames();
    PlainCons("Pages", Reference(2), NoPairs);
    PlainCons("Type", Name("Catalog"), Pair("Pages", Reference(2), NoPairs));
  }

  lemma CatalogWritten()
    ensures Catalog() == Show(CatalogValue())
  {
    CatalogTexts();
    LastPair("Pages", Reference(2));
    MorePairs("Type", Name("Catalog"), Pair("Pages", Reference(2), NoPairs));
    assert Show(Name("Catalog")) == "/Catalog" && Show(Reference(2)) == "2 0 R";
    DictionaryText(CatalogValue().pairs, " /Type /Catalog" + " /Pages 2 0 R");
  }

  lemma FontPairs()
    ensures Paired("Type", "/Font") == " /Type /Font" && Paired("Subtype", "/Type1") == " /Subtype /Type1"
    ensures Paired("BaseFont", "/Courier") == " /BaseFont /Courier"
  {
  }

  lemma FontParts()
    ensures FONT_TYPE == "<<" + (" /Type /Font" + " /Subtype /Type1") && FONT_NAME == " /BaseFont /Courier" + " >>"
  {
  }

  lemma FontTexts()
    ensures Paired("Type", "/Font") == " /Type /Font" && Paired("Subtype", "/Type1") == " /Subtype /Type1"
    ensures Paired("BaseFont", "/Courier") == " /BaseFont /Courier"
    ensures FONT_TYPE == "<<" + (" /Type /Font" + " /Subtype /Type1") && FONT_NAME == " /BaseFont /Courier" + " >>"
  {
    FontPairs();
    FontParts();
  }

  lemma PlainCons(key: string, v: Value, tail: Pairs)
    requires PlainName(key) && Plain(v) && PlainPairs(tail)
    ensures PlainPairs(Pair(key, v, tail))
  {
  }

  lemma FontNames()
    ensures PlainName("Font") && PlainName("Type1") && PlainName("Courier")
  {
  }

  lemma FontKeys()
    ensures PlainName("Type") && PlainName("Subtype") && PlainName("BaseFont")
  {
  }

  lemma FontPlain()
    ensures Plain(FontValue())
  {
    FontNames();
    FontKeys();
    var last := Pair("BaseFont", Name("Courier"), NoPairs);
    PlainCons("BaseFont", Name("Courier"), NoPairs);
    PlainCons("Subtype", Name("Type1"), last);
    PlainCons("Type", Name("Font"), Pair("Subtype", Name("Type1"), last));
  }

  lemma FontWritten()
    ensures FONT_TYPE + FONT_NAME == Show(FontValue())
  {
    FontTexts();
    var last := Pair("BaseFont", Name("Courier"), NoPairs);
    var two := Pair("Subtype", Name("Type1"), last);
    LastPair("BaseFont", Name("Courier"));
    MorePairs("Subtype", Name("Type1"), last);
    MorePairs("Type", Name("Font"), two);
    assert Show(Name("Font")) == "/Font" && Show(Name("Type1")) == "/Type1" && Show(Name("Courier")) == "/Courier";
    DictionaryText(FontValue().pairs, " /Type /Font" + (" /Subtype /Type1" + " /BaseFont /Courier"));
    Regroup3("<<", " /Type /Font", " /Subtype /Type1", " /BaseFont /Courier", " >>");
  }

  lemma Regroup3(a: string, b: string, c: string, d: string, e: string)
    ensures a + (b + c) + (d + e) == a + (b + (c + d)) + e
  {
  }

  lemma {:induction false} ReferencesText(ids: seq<nat>)
    ensures ShowItems(References(ids)) == Join(Map(ids, Kid), " ") && PlainItems(References(ids))
  {
    if ids != [] {
      ReferencesText(ids[1..]);
      MapFirst(ids, Kid);
      if |ids| > 1 { JoinCons(Kid(ids[0]), Map(ids[1..], Kid), " "); }
    }
  }

  lemma PagesTexts()
    ensures KIDS_HEAD == "<<" + (" /Type /Pages" + (" /" + "Kids" + (" " + "[")))
    ensures COUNT_HEAD == "]" + (" /" + "Count" + " ")
    ensures Paired("Type", "/Pages") == " /Type /Pages"
  {
  }

  lemma PagesRegroup(a: string, b: string, c: string, d: string, e: string, kids: string, close: string, f: string,
                     g: string, h: string, n: string, z: string)
    ensures a + (b + (c + d + (e + f))) + kids + (close + (g + h + e)) + n + z
         == a + (b + (c + d + (e + (f + kids + close)) + (g + h + (e + n)))) + z
  {
  }

  lemma PagesWritten(ids: seq<nat>)
    ensures PagesObject(ids) == Show(PagesValue(ids)) && Plain(PagesValue(ids))
  {
    var kids, count := Join(Map(ids, Kid), " "), NatText(|ids|);
    PagesTexts();
    ReferencesText(ids);
    var last := Pair("Count", Number(|ids|), NoPairs);
    var two := Pair("Kids", Array(References(ids)), last);
    LastPair("Count", Number(|ids|));
    MorePairs("Kids", Array(References(ids)), last);
    MorePairs("Type", Name("Pages"), two);
    PagesPlain(References(ids), |ids|);
    assert Show(Name("Pages")) == "/Pages";
    DictionaryText(PagesValue(ids).pairs,
                   " /Type /Pages" + (Paired("Kids", "[" + kids + "]") + Paired("Count", count)));
    PagesRegroup("<<", " /Type /Pages", " /", "Kids", " ", kids, "]", "[", " /", "Count", count, " >>");
  }

  lemma PagesNames()
    ensures PlainName("Type") && PlainName("Pages") && PlainName("Kids") && PlainName("Count")
  {
  }

  lemma PagesPlain(items: Items, count: nat)
    requires PlainItems(items)
    ensures PlainPairs(Pair("Type", Name("Pages"), Pair("Kids", Array(items), Pair("Count", Number(count), NoPairs))))
  {
    PagesNames();
    var last := Pair("Count", Number(count), NoPairs);
    PlainCons("Count", Number(count), NoPairs);
    PlainCons("Kids", Array(items), last);
    PlainCons("Type", Name("Pages"), Pair("Kids", Array(items), last));
  }

  lemma BoxWritten()
    ensures Show(BoxValue()) == "[0 0 842 595]" && Plain(BoxValue())
  {
    SmallNumbers();
    var one := Item(Number(595), NoItems);
    var two := Item(Number(842), one);
    var three := Item(Number(0), two);
    assert ShowItems(one) == "595" && ShowItems(two) == "842 595" && ShowItems(three) == "0 842 595";
    assert PlainItems(two);
    assert PlainItems(three);
  }

  lemma PageKeys()
    ensures PlainName("Type") && PlainName("Page") && PlainName("Parent") && PlainName("MediaBox")
  {
  }

  lemma ResourceKeys()
    ensures PlainName("Resources") && PlainName("Contents") && PlainName("Font") && PlainName("F1")
  {
  }

  lemma ResourcesPlain()
    ensures Plain(ResourcesValue())
  {
    ResourceKeys();
    PlainCons("F1", Reference(3), NoPairs);
    PlainCons("Font", Dictionary(Pair("F1", Reference(3), NoPairs)), NoPairs);
  }

  lemma FontsText()
    ensures Paired("F1", "3 0 R") == " /F1 3 0 R" && "<<" + " /F1 3 0 R" + " >>" == "<< /F1 3 0 R >>"
  {
  }

  lemma ResourcesText()
    ensures Paired("Font", "<< /F1 3 0 R >>") == " /Font << /F1 3 0 R >>"
    ensures "<<" + " /Font << /F1 3 0 R >>" + " >>" == "<< /Font << /F1 3 0 R >> >>"
  {
  }

  lemma ResourcesWritten()
    ensures Show(ResourcesValue()) == "<< /Font << /F1 3 0 R >> >>"
  {
    SmallNumbers();
    FontsText();
    ResourcesText();
    assert Show(Reference(3)) == "3 0 R";
    LastPair("F1", Reference(3));
    DictionaryText(Pair("F1", Reference(3), NoPairs), " /F1 3 0 R");
    LastPair("Font", Dictionary(Pair("F1", Reference(3), NoPairs)));
    DictionaryText(ResourcesValue().pairs, " /Font << /F1 3 0 R >>");
  }

  lemma PagePairTexts()
    ensures Paired("Type", "/Page") == " /Type /Page" && Paired("Parent", "2 0 R") == " /Parent 2 0 R"
  {
  }

  lemma BoxText()
    ensures Paired("MediaBox", "[0 0 842 595]") == " /MediaBox [0 0 842 595]"
    ensures PAGE_BOX == " /MediaBox [0 0 842 595]"
  {
  }

  lemma PageParts()
    ensures PAGE_TYPE == "<<" + (" /Type /Page" + " /Parent 2 0 R")
  {
  }

  lemma ResourceTexts()
    ensures Paired("Resources", "<< /Font << /F1 3 0 R >> >>") == PAGE_RESOURCES + PAGE_FONTS
    ensures CONTENTS_HEAD == " /" + "Contents" + " "
  {
  }

  lemma PageRegroup(a: string, b: string, c: string, d: string, e: string, f: string, g: string, h: string, i: string,
                    content: string, tail: string, z: string)
    ensures (a + (b + c)) + d + e + f + (g + h + i) + content + tail + z
         == a + (b + (c + (d + ((e + f) + (g + h + (i + (content + tail))))))) + z
  {
  }

  lemma PagePlain(box: Value, resources: Value, content: nat)
    requires Plain(box) && Plain(resources)
    ensures PlainPairs(Pair("Type", Name("Page"), Pair("Parent", Reference(2), Pair("MediaBox", box,
                       Pair("Resources", resources, Pair("Contents", Reference(content), NoPairs))))))
  {
    PageKeys();
    ResourceKeys();
    var one := Pair("Contents", Reference(content), NoPairs);
    var two := Pair("Resources", resources, one);
    var three := Pair("MediaBox", box, two);
    PlainCons("Contents", Reference(content), NoPairs);
    PlainCons("Resources", resources, one);
    PlainCons("MediaBox", box, two);
    PlainCons("Parent", Reference(2), three);
    PlainCons("Type", Name("Page"), Pair("Parent", Reference(2), three));
  }

  lemma PagePairs(box: Value, resources: Value, content: nat)
    ensures ShowPairs(Pair("Type", Name("Page"), Pair("Parent", Reference(2), Pair("MediaBox", box,
                      Pair("Resources", resources, Pair("Contents", Reference(content), NoPairs))))))
         == Paired("Type", "/" + "Page") + (Paired("Parent", NatText(2) + " 0 R") + (Paired("MediaBox", Show(box))
            + (Paired("Resources", Show(resources)) + Paired("Contents", NatText(content) + " 0 R"))))
  {
    var one := Pair("Contents", Reference(content), NoPairs);
    var two := Pair("Resources", resources, one);
    var three := Pair("MediaBox", box, two);
    LastPair("Contents", Reference(content));
    MorePairs("Resources", resources, one);
    MorePairs("MediaBox", box, two);
    MorePairs("Parent", Reference(2), three);
    MorePairs("Type", Name("Page"), Pair("Parent", Reference(2), three));
  }

  lemma PageWritten(content: nat)
    ensures PageObject(content) == Show(PageValue(content)) && Plain(PageValue(content))
  {
    BoxWritten();
    ResourcesPlain();
    ResourcesWritten();
    PagePlain(BoxValue(), ResourcesValue(), content);
    PagePairs(BoxValue(), ResourcesValue(), content);
    SmallNumbers();
    PagePairTexts();
    BoxText();
    PageParts();
    ResourceTexts();
    assert "/" + "Page" == "/Page" && "2" + " 0 R" == "2 0 R";
    DictionaryText(PageValue(content).pairs, PageInner(content));
    PageRegroup("<<", " /Type /Page", " /Parent 2 0 R", PAGE_BOX, PAGE_RESOURCES, PAGE_FONTS, " /", "Contents", " ",
                NatText(content), " 0 R", " >>");
  }

  function PageInner(content: nat): string {
    " /Type /Page" + (" /Parent 2 0 R" + (" /MediaBox [0 0 842 595]" + ((PAGE_RESOURCES + PAGE_FONTS)
      + Paired("Contents", NatText(content) + " 0 R"))))
  }

  lemma LengthText()
    ensures LENGTH_HEAD == "<<" + (" /" + "Length" + " ")
  {
  }

  lemma LengthRegroup(a: string, b: string, n: string, c: string)
    ensures a + (b + " ") + n + c == a + (b + (" " + n)) + c
  {
  }

  lemma LengthPlain(length: nat)
    ensures Plain(LengthValue(length))
  {
    assert PlainName("Length");
    PlainCons("Length", Number(length), NoPairs);
  }

  lemma LengthWritten(length: nat)
    ensures LENGTH_HEAD + NatText(length) + " >>" == Show(LengthValue(length))
  {
    LastPair("Length", Number(length));
    LengthText();
    DictionaryText(LengthValue(length).pairs, Paired("Length", NatText(length)));
    LengthRegroup("<<", " /" + "Length", NatText(length), " >>");
  }

  lemma TrailerTexts()
    ensures TRAILER_HEAD == "trailer\n" + ("<<" + (" /" + "Size" + " ")) && ROOT_HEAD == " /" + "Root" + " "
  {
  }

  lemma TrailerPlain(size: nat)
    ensures Plain(TrailerValue(size))
  {
    assert PlainName("Size") && PlainName("Root");
    PlainCons("Root", Reference(1), NoPairs);
    PlainCons("Size", Number(size), Pair("Root", Reference(1), NoPairs));
  }

  lemma TrailerWritten(size: nat)
    ensures Trailer(size) == "trailer\n" + Show(TrailerValue(size)) + "\n"
  {
    LastPair("Root", Reference(1));
    MorePairs("Size", Number(size), Pair("Root", Reference(1), NoPairs));
    TrailerTexts();
    DictionaryText(TrailerValue(size).pairs, Paired("Size", NatText(size)) + Paired("Root", NatText(1) + " 0 R"));
    TrailerRegroup("trailer\n", "<<", " /", "Size", " ", NatText(size), "Root", NatText(1), " 0 R", " >>", "\n");
  }

  lemma TrailerRegroup(a: string, b: string, c: string, d: string, e: string, size: string, f: string, root: string,
                       g: string, z: string, newline: string)
    ensures (a + (b + (c + d + e))) + size + (c + f + e) + root + g + z + newline
         == a + (b + ((c + d + (e + size)) + (c + f + (e + (root + g)))) + z) + newline
  {
  }

  // ----------------------------------------------------------- proofs: opening

  lemma TrailerFields(size: nat)
    ensures RootOf(TrailerValue(size), size) == Some(1)
  {
    assert Field(TrailerValue(size), "Size") == Some(Number(size));
    assert "Size"[0] != "Root"[0];
    assert Get(Pair("Root", Reference(1), NoPairs), "Root") == Some(Reference(1));
  }

  lemma TrailerReads(size: nat, rest: string)
    ensures ReadTrailer(Trailer(size) + rest, size) == Some(1)
  {
    TrailerWritten(size);
    TrailerPlain(size);
    var shown := Show(TrailerValue(size));
    assert "trailer\n" + shown + "\n" + rest == "trailer\n" + (shown + ("\n" + rest));
    ExpectReads("trailer\n", shown + ("\n" + rest));
    ValueReads(TrailerValue(size), "\n" + rest);
    TrailerFields(size);
  }

  lemma OpenTableReads(doc: string, entries: string, size: nat, rest: string)
    requires |entries| == ENTRY_LENGTH * size && FreeFirst(entries)
    ensures OpenTable(doc, entries + (Trailer(size) + rest), size)
         == Some(Opened(doc, entries + (Trailer(size) + rest), size, 1))
  {
    TrailerReads(size, rest);
    assert (entries + (Trailer(size) + rest))[ENTRY_LENGTH * size..] == Trailer(size) + rest;
    assert (entries + (Trailer(size) + rest))[..ENTRY_LENGTH] == entries[..ENTRY_LENGTH];
  }

  lemma OpenAtReads(doc: string, entries: string, size: nat, rest: string)
    requires |entries| == ENTRY_LENGTH * size && FreeFirst(entries)
    ensures OpenAt(doc, "xref\n0 " + (NatText(size) + ("\n" + (entries + (Trailer(size) + rest)))))
         == Some(Opened(doc, entries + (Trailer(size) + rest), size, 1))
  {
    var table := entries + (Trailer(size) + rest);
    ExpectReads("xref\n0 ", NatText(size) + ("\n" + table));
    AmountReads(size, "\n", table);
    OpenTableReads(doc, entries, size, rest);
  }

  lemma SplitAssembly(body: string, a: string, b: string, c: string, entries: string, trailer: string, ending: string)
    ensures var doc := body + (a + b + c + entries) + trailer + ending;
            && |body| <= |doc|
            && doc[|body|..] == a + (b + (c + (entries + (trailer + ending))))
            && doc == (body + (a + b + c + entries) + trailer) + ending
  {
    var rest := a + (b + (c + (entries + (trailer + ending))));
    assert body + (a + b + c + entries) + trailer + ending == body + rest;
  }

  lemma OpensAt(doc: string, start: nat, section: string, o: Opened)
    requires "%PDF-1.4\n" <= doc && LastField(doc, "startxref\n", "\n%%EOF\n") == Some(start) && start <= |doc|
    requires doc[start..] == section && OpenAt(doc, section) == Some(o)
    ensures Open(doc) == Some(o)
  {
  }

  lemma OpenReads(body: string, entries: string, size: nat)
    requires |entries| == ENTRY_LENGTH * size && FreeFirst(entries) && "%PDF-1.4\n" <= body
    ensures var doc := Assemble(body, entries, size);
            Open(doc) == Some(Opened(doc, entries + (Trailer(size) + Ending(|body|)), size, 1))
  {
    var doc := Assemble(body, entries, size);
    var rest := Trailer(size) + Ending(|body|);
    var section := XREF_HEAD + (NatText(size) + ("\n" + (entries + rest)));
    SplitAssembly(body, XREF_HEAD, NatText(size), "\n", entries, Trailer(size), Ending(|body|));
    LastFieldReads(body + XrefSection(size, entries) + Trailer(size), START_HEAD, |body|, EOF_MARK);
    OpenAtReads(doc, entries, size, Ending(|body|));
    HeaderStays(body, XrefSection(size, entries), Trailer(size), Ending(|body|));
    OpensAt(doc, |body|, section, Opened(doc, entries + rest, size, 1));
  }

  lemma HeaderStays(body: string, a: string, b: string, c: string)
    ensures body <= body + a + b + c
  {
  }

  lemma {:induction false} HeaderFirst(objects: seq<string>, last: nat)
    requires last < |objects|
    ensures "%PDF-1.4\n" <= Body(objects, last)
  {
    if last != 0 { HeaderFirst(objects, last - 1); }
  }

  lemma FreeStays(table: string, more: string)
    requires FreeFirst(table)
    ensures FreeFirst(table + more)
  {
    assert (table + more)[..ENTRY_LENGTH] == table[..ENTRY_LENGTH];
  }

  lemma {:induction false} FreeEntryFirst(objects: seq<string>, last: nat)
    requires last < |objects|
    ensures FreeFirst(Entries(objects, last))
  {
    if last == 0 {
      FreeEntryLength();
    } else {
      FreeEntryFirst(objects, last - 1);
      FreeStays(Entries(objects, last - 1), Entry(Offset(objects, last)));
    }
  }

  // ----------------------------------------------------------- proofs: finding

  lemma SlotOfPrefix(entries: string, rest: string, id: nat)
    requires ENTRY_LENGTH * id + ENTRY_LENGTH <= |entries|
    ensures Slot(entries + rest, id) == Slot(entries, id)
  {
  }

  lemma FindAt(o: Opened, id: nat, before: string, text: string, after: string)
    requires Lookup(o, id) == Some(|before|)
    requires o.doc == before + (ObjectBytes(id, text) + after)
    ensures Find(o, id) == Some(text + (OBJECT_TAIL + after))
  {
    assert o.doc[|before|..] == ObjectBytes(id, text) + after;
    RegroupObject(NatText(id), OBJECT_HEAD, text, OBJECT_TAIL, after);
    ExpectReads(NatText(id) + OBJECT_HEAD, text + (OBJECT_TAIL + after));
  }

  lemma RegroupObject(a: string, b: string, c: string, d: string, after: string)
    ensures (a + b + c + d) + after == (a + b) + (c + (d + after))
  {
  }

  lemma LookupSlot(o: Opened, id: nat, offset: nat)
    requires id < o.count && ENTRY_LENGTH * id + ENTRY_LENGTH <= |o.table|
    requires Slot(o.table, id) == Entry(offset) && offset < Pow10(OFFSET_DIGITS)
    ensures Lookup(o, id) == Some(offset)
  {
    EntryIsTwentyBytes(offset);
  }

  lemma LookupReads(o: Opened, entries: string, rest: string, id: nat, offset: nat)
    requires id < o.count && |entries| == ENTRY_LENGTH * o.count && o.table == entries + rest
    requires Slot(entries, id) == Entry(offset) && offset < Pow10(OFFSET_DIGITS)
    ensures Lookup(o, id) == Some(offset)
  {
    SlotOfPrefix(entries, rest, id);
    LookupSlot(o, id, offset);
  }

  /** An opened file of these objects. */
  ghost predicate OpensTo(objects: seq<string>, o: Opened)
    requires objects != []
  {
    && Open(Document(objects)) == Some(o)
    && o.doc == Document(objects) && o.count == |objects| && o.root == 1
  }

  /** The file opens, and every entry of its table is the position of its object: looking an
      object up and reading on from there gives the object's own text. */
  lemma EveryObjectIsFound(objects: seq<string>) returns (o: Opened)
    requires |objects| >= 2 && OffsetsFit(objects)
    ensures OpensTo(objects, o)
    ensures forall id | 1 <= id < |objects| :: Lookup(o, id) == Some(Offset(objects, id))
    ensures forall id | 1 <= id < |objects| :: exists after :: Find(o, id) == Some(objects[id] + (OBJECT_TAIL + after))
  {
    var last := |objects| - 1;
    var body, entries, size := Body(objects, last), Entries(objects, last), |objects|;
    var rest := Trailer(size) + Ending(|body|);
    EntryAt(objects, last, last);
    HeaderFirst(objects, last);
    FreeEntryFirst(objects, last);
    OpenReads(body, entries, size);
    o := Opened(Document(objects), entries + rest, size, 1);
    forall id | 1 <= id < |objects|
      ensures Lookup(o, id) == Some(Offset(objects, id))
      ensures exists after :: Find(o, id) == Some(objects[id] + (OBJECT_TAIL + after))
    {
      EntryAt(objects, id, last);
      FitsEach(objects, id);
      LookupReads(o, entries, rest, id, Offset(objects, id));
      var after := DocumentHolds(objects, id);
      FindAt(o, id, Body(objects, id - 1), objects[id], after);
    }
  }

  lemma SplitHeld(before: string, bytes: string, after: string, b: string, c: string, d: string)
    ensures (before + (bytes + after)) + b + c + d == before + (bytes + (after + b + c + d))
  {
  }

  /** Each object's bytes stand in the file at its recorded offset. */
  lemma DocumentHolds(objects: seq<string>, id: nat) returns (after: string)
    requires 1 <= id < |objects|
    ensures Document(objects) == Body(objects, id - 1) + (ObjectBytes(id, objects[id]) + after)
  {
    var last := |objects| - 1;
    var within := BodyHolds(objects, id, last);
    var b, c, d := XrefSection(|objects|, Entries(objects, last)), Trailer(|objects|), Ending(|Body(objects, last)|);
    after := within + b + c + d;
    SplitHeld(Body(objects, id - 1), ObjectBytes(id, objects[id]), within, b, c, d);
  }

  // ----------------------------------------------------------- proofs: objects

  ghost predicate Reads(o: Opened, id: nat, text: string) {
    exists after :: Find(o, id) == Some(text + (OBJECT_TAIL + after))
  }

  /** An object that is written as a value is read as that value. */
  lemma ObjectReads(o: Opened, id: nat, text: string, v: Value)
    requires Reads(o, id, text) && text == Show(v) && Plain(v)
    ensures ReadObject(o, id) == Some(v)
  {
    var after :| Find(o, id) == Some(text + (OBJECT_TAIL + after));
    ValueReads(v, OBJECT_TAIL + after);
  }

  lemma StreamTail(length: string, stream: string, after: string)
    ensures LENGTH_HEAD + length + STREAM_START + stream + STREAM_CLOSE + (OBJECT_TAIL + after)
         == (LENGTH_HEAD + length + " >>") + ("\nstream\n" + (stream + ("\nendstream\nendobj\n" + after)))
  {
    assert STREAM_START == " >>" + "\nstream\n";
    assert STREAM_CLOSE + OBJECT_TAIL == "\nendstream\nendobj\n";
    StreamRegroup(LENGTH_HEAD + length, " >>", "\nstream\n", stream, STREAM_CLOSE, OBJECT_TAIL, after);
  }

  lemma StreamRegroup(a: string, b: string, c: string, stream: string, d: string, e: string, after: string)
    ensures a + (b + c) + stream + d + (e + after) == (a + b) + (c + (stream + ((d + e) + after)))
  {
  }

  lemma DelimitedReads(stream: string, tail: string, after: string)
    requires tail == "\nendstream\nendobj\n"
    ensures Delimited(stream + (tail + after), |stream|) == Some(stream)
  {
    assert (stream + (tail + after))[|stream|..] == tail + after;
  }

  lemma LengthField(length: nat)
    ensures NumberOf(Field(LengthValue(length), "Length")) == Some(length)
  {
  }

  lemma ContentFollows(s: string, length: nat, data: string)
    requires ReadValue(s) == Some(Read(LengthValue(length), "\nstream\n" + data))
    ensures ReadContent(s) == Delimited(data, length)
  {
    LengthField(length);
    ExpectReads("\nstream\n", data);
  }

  lemma ContentReads(stream: string, after: string)
    requires AllAscii(stream)
    ensures ReadContent(StreamObject(stream) + (OBJECT_TAIL + after)) == Some(stream)
  {
    var length := ByteLen(stream);
    var data := stream + ("\nendstream\nendobj\n" + after);
    StreamTail(NatText(length), stream, after);
    LengthWritten(length);
    LengthPlain(length);
    StreamApart(data);
    ValueReads(LengthValue(length), "\nstream\n" + data);
    ContentFollows(StreamObject(stream) + (OBJECT_TAIL + after), length, data);
    DelimitedReads(stream, "\nendstream\nendobj\n", after);
  }

  lemma StreamApart(data: string)
    ensures Apart("\nstream\n" + data)
  {
  }

  lemma TextFollows(o: Opened, id: nat, s: string, stream: string, block: TextBlock)
    requires Find(o, id) == Some(s) && ReadContent(s) == Some(stream) && ReadStream(stream) == Some(block)
    ensures ReadText(o, Some(Reference(id))) == Some(block)
  {
    assert ReferenceOf(Some(Reference(id))) == Some(id);
  }

  lemma TextReads(o: Opened, id: nat, lines: seq<string>, contents: Option<Value>)
    requires contents == Some(Reference(id)) && Reads(o, id, StreamObject(TextStream(lines)))
    ensures ReadText(o, contents) == Some(TextBlock("F1", 8, 36, 555, 11, Map(lines, Shown)))
  {
    var after :| Find(o, id) == Some(StreamObject(TextStream(lines)) + (OBJECT_TAIL + after));
    StreamAscii(lines);
    ContentReads(TextStream(lines), after);
    StreamRoundTrip(lines);
    TextFollows(o, id, StreamObject(TextStream(lines)) + (OBJECT_TAIL + after), TextStream(lines),
                TextBlock("F1", 8, 36, 555, 11, Map(lines, Shown)));
  }

  lemma FontFields()
    ensures BaseFont(Some(FontValue())) == Some("Courier")
  {
  }

  lemma CatalogFields()
    ensures TreeOf(Some(CatalogValue())) == Some(2)
  {
  }

  lemma {:induction false} ReferenceIds(ids: seq<nat>)
    ensures Ids(References(ids)) == Some(ids)
  {
    if ids != [] {
      ReferenceIds(ids[1..]);
      assert ids == [ids[0]] + ids[1..];
    }
  }

  lemma TreeFields(ids: seq<nat>)
    ensures KidsOf(PagesValue(ids)) == Some(ids)
  {
    ReferenceIds(ids);
    var last := Pair("Count", Number(|ids|), NoPairs);
    var two := Pair("Kids", Array(References(ids)), last);
    KeysApart();
    GetNext("Type", Name("Pages"), two, "Kids");
    GetNext("Type", Name("Pages"), two, "Count");
    GetNext("Kids", Array(References(ids)), last, "Count");
  }

  lemma GetNext(key: string, v: Value, tail: Pairs, wanted: string)
    requires key != wanted
    ensures Get(Pair(key, v, tail), wanted) == Get(tail, wanted)
  {
  }

  lemma KeysApart()
    ensures "Type" != "Kids" && "Type" != "Count" && "Kids" != "Count"
  {
    assert "Type"[0] == 'T' && "Kids"[0] == 'K' && "Count"[0] == 'C';
  }

  lemma PageKeysApart()
    ensures "Type"[0] == 'T' && "Parent"[0] == 'P' && "MediaBox"[0] == 'M'
    ensures "Resources"[0] == 'R' && "Contents"[0] == 'C'
  {
  }

  lemma PageFields(content: nat)
    ensures HasType(PageValue(content), "Page") && Field(PageValue(content), "Parent") == Some(Reference(2))
    ensures Field(PageValue(content), "MediaBox") == Some(BoxValue())
    ensures Field(PageValue(content), "Contents") == Some(Reference(content))
    ensures Field(PageValue(content), "Resources") == Some(ResourcesValue())
  {
    var one := Pair("Contents", Reference(content), NoPairs);
    var two := Pair("Resources", ResourcesValue(), one);
    var three := Pair("MediaBox", BoxValue(), two);
    var four := Pair("Parent", Reference(2), three);
    PageKeysApart();
    GetNext("Type", Name("Page"), four, "Parent");
    GetNext("Type", Name("Page"), four, "MediaBox");
    GetNext("Type", Name("Page"), four, "Resources");
    GetNext("Type", Name("Page"), four, "Contents");
    GetNext("Parent", Reference(2), three, "MediaBox");
    GetNext("Parent", Reference(2), three, "Resources");
    GetNext("Parent", Reference(2), three, "Contents");
    GetNext("MediaBox", BoxValue(), two, "Resources");
    GetNext("MediaBox", BoxValue(), two, "Contents");
    GetNext("Resources", ResourcesValue(), one, "Contents");
  }

  lemma ResourceFields()
    ensures Field(ResourcesValue(), "Font") == Some(Dictionary(Pair("F1", Reference(3), NoPairs)))
    ensures Field(Dictionary(Pair("F1", Reference(3), NoPairs)), "F1") == Some(Reference(3))
  {
  }

  lemma PageFromReads(o: Opened, page: Value, text: TextBlock)
    requires Field(page, "MediaBox") == Some(BoxValue()) && Field(page, "Resources") == Some(ResourcesValue())
    requires ReadText(o, Field(page, "Contents")) == Some(text) && text.font == "F1"
    requires ReadObject(o, 3) == Some(FontValue())
    ensures PageFrom(o, page) == Some(Page(842, 595, "Courier", text))
  {
    ResourceFields();
    FontFields();
  }

  lemma PageReads(o: Opened, id: nat, content: nat, lines: seq<string>)
    requires Reads(o, id, PageObject(content)) && Reads(o, content, StreamObject(TextStream(lines)))
    requires ReadObject(o, 3) == Some(FontValue())
    ensures ReadPage(o, 2, id) == Some(ShownPage(lines))
  {
    PageWritten(content);
    ObjectReads(o, id, PageObject(content), PageValue(content));
    PageFields(content);
    TextReads(o, content, lines, Some(Reference(content)));
    PageFromReads(o, PageValue(content), ShownPage(lines).text);
  }

  /** A page of the file as it should be read: 842 by 595 points, its text in Courier at eight points,
      from (36, 555) down in steps of eleven. */
  function ShownPage(lines: seq<string>): Page {
    Page(842, 595, "Courier", TextBlock("F1", 8, 36, 555, 11, Map(lines, Shown)))
  }

  // ----------------------------------------------------------- proofs: the whole file

  lemma {:induction false} EachReads(ids: seq<nat>, read: nat -> Option<Page>, pages: seq<Page>)
    requires |ids| == |pages|
    requires forall p | 0 <= p < |ids| :: read(ids[p]) == Some(pages[p])
    ensures ReadEach(ids, read) == Some(pages)
  {
    if ids != [] {
      var n := |ids| - 1;
      EachReads(ids[..n], read, pages[..n]);
      assert pages == pages[..n] + [pages[n]];
    }
  }

  ghost predicate AllRead(o: Opened, text: nat -> string, count: nat) {
    forall id: nat | 1 <= id < count :: Reads(o, id, text(id))
  }

  lemma ReadsOne(o: Opened, text: nat -> string, count: nat, id: nat)
    requires AllRead(o, text, count) && 1 <= id < count
    ensures Reads(o, id, text(id))
  {
  }

  /** The file's pages as they should be read. */
  function ShownPages(lines: seq<string>): seq<Page> {
    Map(AllPages(lines), ShownPage)
  }

  lemma PageAt(o: Opened, lines: seq<string>, page: nat)
    requires AllRead(o, TextOf(lines), 4 + 2 * PageCount(|lines|)) && page < PageCount(|lines|)
    requires ReadObject(o, 3) == Some(FontValue())
    ensures ReadPage(o, 2, 4 + 2 * page) == Some(ShownPage(PageLines(lines, page)))
  {
    ReadsOne(o, TextOf(lines), 4 + 2 * PageCount(|lines|), 4 + 2 * page);
    ReadsOne(o, TextOf(lines), 4 + 2 * PageCount(|lines|), 5 + 2 * page);
    PlacedTexts(lines, page);
    PageReads(o, 4 + 2 * page, 5 + 2 * page, PageLines(lines, page));
  }

  lemma ListedPage(lines: seq<string>, page: nat)
    requires page < PageCount(|lines|)
    ensures KidIds(PageCount(|lines|))[page] == 4 + 2 * page
    ensures ShownPages(lines)[page] == ShownPage(PageLines(lines, page))
  {
  }

  lemma PagesRead(o: Opened, lines: seq<string>)
    requires AllRead(o, TextOf(lines), 4 + 2 * PageCount(|lines|)) && ReadObject(o, 3) == Some(FontValue())
    ensures ReadEach(KidIds(PageCount(|lines|)), PageReader(o, 2)) == Some(ShownPages(lines))
  {
    var ids, read, pages := KidIds(PageCount(|lines|)), PageReader(o, 2), ShownPages(lines);
    forall p: nat | p < |ids| ensures read(ids[p]) == Some(pages[p]) {
      PageAt(o, lines, p);
      ListedPage(lines, p);
    }
    EachReads(ids, read, pages);
  }

  lemma FrontReads(o: Opened, lines: seq<string>)
    requires AllRead(o, TextOf(lines), 4 + 2 * PageCount(|lines|))
    ensures ReadObject(o, 1) == Some(CatalogValue()) && ReadObject(o, 3) == Some(FontValue())
    ensures ReadObject(o, 2) == Some(PagesValue(KidIds(PageCount(|lines|))))
  {
    var n := 4 + 2 * PageCount(|lines|);
    ReadsOne(o, TextOf(lines), n, 1);
    ReadsOne(o, TextOf(lines), n, 2);
    ReadsOne(o, TextOf(lines), n, 3);
    FixedTexts(lines);
    CatalogPlain();
    CatalogWritten();
    FontWritten();
    FontPlain();
    PagesWritten(KidIds(PageCount(|lines|)));
    ObjectReads(o, 1, Catalog(), CatalogValue());
    ObjectReads(o, 2, PagesObject(KidIds(PageCount(|lines|))), PagesValue(KidIds(PageCount(|lines|))));
    ObjectReads(o, 3, FONT_TYPE + FONT_NAME, FontValue());
  }

  lemma OpenedReads(o: Opened, lines: seq<string>)
    requires o.root == 1 && AllRead(o, TextOf(lines), 4 + 2 * PageCount(|lines|))
    ensures ReadOpened(o) == Some(ShownPages(lines))
  {
    FrontReads(o, lines);
    CatalogFields();
    TreeFields(KidIds(PageCount(|lines|)));
    PagesRead(o, lines);
  }

  lemma FileOpens(objects: seq<string>, text: nat -> string) returns (o: Opened)
    requires |objects| >= 2 && OffsetsFit(objects) && objects == Listed(text, |objects|)
    ensures Open(Document(objects)) == Some(o) && o.root == 1 && AllRead(o, text, |objects|)
  {
    o := EveryObjectIsFound(objects);
    forall id: nat | 1 <= id < |objects| ensures Reads(o, id, text(id)) {
      assert objects[id] == text(id);
    }
  }

  /** Reading a written file, from its end mark through the table, the trailer, the catalog and the page
      tree down to fonts and literal strings, gives back every page: 842 by 595 points, its lines as
      shown, in order, in Courier at eight points from (36, 555) down in steps of eleven. */
  lemma DocumentRoundTrip(lines: seq<string>)
    requires OffsetsFit(Objects(lines))
    ensures ReadDocument(Document(Objects(lines))) == Some(ShownPages(lines))
  {
    var o := FileOpens(Objects(lines), TextOf(lines));
    OpenedReads(o, lines);
  }

  /** A character of Courier is six tenths of its size wide (ISO 32000-1, section 9.6.2.2). */
  const COURIER_WIDTH := 0.6

  predicate Fits(page: Page, k: nat)
    requires k < |page.text.lines|
  {
    && 0 < page.text.y - k * page.text.leading && page.text.y + page.text.size <= page.height
    && page.text.x as real + COURIER_WIDTH * page.text.size as real * |page.text.lines[k]| as real <= page.width as real
  }

  lemma FitsOne(page: Page, k: nat)
    requires page.width == 842 && page.height == 595 && page.text.size == 8 && page.text.x == 36
    requires page.text.y == 555 && page.text.leading == 11
    requires k < |page.text.lines| <= 46 && |page.text.lines[k]| <= 132
    ensures Fits(page, k)
  {
    assert |page.text.lines[k]| as real <= 132.0;
  }

  /** Every line of every page stands on the page, over its whole width. */
  lemma EveryLineFits(lines: seq<string>, p: nat, k: nat)
    requires p < |ShownPages(lines)| && k < |ShownPages(lines)[p].text.lines|
    ensures Fits(ShownPages(lines)[p], k)
  {
    PagesHoldAllLines(lines);
    var page := AllPages(lines)[p];
    ShownIs(page[k]);
    assert ShownPages(lines)[p] == ShownPage(page) && ShownPage(page).text.lines[k] == Shown(page[k]);
    FitsOne(ShownPage(page), k);
  }
}
