/** The PDF writer of src/http/archive_pdf.rs: objects, byte offsets, cross-reference table and
    page tree. */
module ArchivePdf {
  import opened Text
  import opened Decimals
  import opened Sequences
  import opened PdfText

  const LINES_PER_PAGE := 46
  const HEADER := "%PDF-1.4\n"
  const CATALOG_HEAD := "<< /Type /Catalog /Pages "
  const FONT_TYPE := "<< /Type /Font /Subtype /Type1"
  const FONT_NAME := " /BaseFont /Courier >>"
  const PAGE_TYPE := "<< /Type /Page /Parent 2 0 R"
  const PAGE_BOX := " /MediaBox [0 0 842 595]"
  const PAGE_RESOURCES := " /Resources << /Font"
  const PAGE_FONTS := " << /F1 3 0 R >> >>"
  const CONTENTS_HEAD := " /Contents "
  const REF_TAIL := " 0 R"
  const DICT_END := " >>"
  const LENGTH_HEAD := "<< /Length "
  const STREAM_START := " >>\nstream\n"
  const STREAM_CLOSE := "\nendstream"
  const KIDS_HEAD := "<< /Type /Pages /Kids ["
  const COUNT_HEAD := "] /Count "
  const OBJECT_HEAD := " 0 obj\n"
  const OBJECT_TAIL := "\nendobj\n"
  const XREF_HEAD := "xref\n0 "
  const FREE_ENTRY := "0000000000 65535 f \n"
  const ENTRY_TAIL := " 00000 n \n"
  const TRAILER_HEAD := "trailer\n<< /Size "
  const ROOT_HEAD := " /Root "
  const START_HEAD := "startxref\n"
  const EOF_MARK := "\n%%EOF\n"

  // ----------------------------------------------------------------------- pages

  function PageCount(lines: nat): (n: nat)
    ensures n >= 1 && lines <= n * LINES_PER_PAGE
    ensures n > 1 ==> (n - 1) * LINES_PER_PAGE < lines
  {
    var n := (lines + LINES_PER_PAGE - 1) / LINES_PER_PAGE;
    if n < 1 then 1 else n
  }

  function PageStart(lines: nat, page: nat): (i: nat)
    requires page <= PageCount(lines)
    ensures i <= lines
  {
    if page * LINES_PER_PAGE < lines then page * LINES_PER_PAGE else lines
  }

  function PageLines(lines: seq<string>, page: nat): seq<string>
    requires page < PageCount(|lines|)
  {
    lines[PageStart(|lines|, page)..PageStart(|lines|, page + 1)]
  }

  function AllPages(lines: seq<string>): seq<seq<string>> {
    seq(PageCount(|lines|), p requires 0 <= p < PageCount(|lines|) => PageLines(lines, p))
  }

  lemma {:induction false} PrefixFlattens(lines: seq<string>, n: nat)
    requires n <= PageCount(|lines|)
    ensures Flatten(AllPages(lines)[..n]) == lines[..PageStart(|lines|, n)]
  {
    if n != 0 {
      PrefixFlattens(lines, n - 1);
      assert AllPages(lines)[..n][..n - 1] == AllPages(lines)[..n - 1];
    }
  }

  /** The pages hold all the lines in order, at most 46 each, and only the last may be short. */
  lemma PagesHoldAllLines(lines: seq<string>)
    ensures Flatten(AllPages(lines)) == lines
    ensures forall p | 0 <= p < |AllPages(lines)| :: |AllPages(lines)[p]| <= 46
    ensures forall p | 0 <= p < |AllPages(lines)| - 1 :: |AllPages(lines)[p]| == 46
    ensures |lines| > 0 ==> |AllPages(lines)[|AllPages(lines)| - 1]| > 0
  {
    var n := PageCount(|lines|);
    PrefixFlattens(lines, n);
    assert AllPages(lines)[..n] == AllPages(lines);
    assert lines[..|lines|] == lines;
  }

  // --------------------------------------------------------------------- objects

  function Kid(id: nat): string {
    NatText(id) + REF_TAIL
  }

  function KidIds(pages: nat): seq<nat> {
    seq(pages, p requires 0 <= p < pages => 4 + 2 * p)
  }

  function Catalog(): string {
    CATALOG_HEAD + NatText(2) + REF_TAIL + DICT_END
  }

  function PagesText(kids: seq<string>, count: nat): string {
    KIDS_HEAD + Join(kids, " ") + COUNT_HEAD + NatText(count) + DICT_END
  }

  function PagesObject(ids: seq<nat>): string {
    PagesText(Map(ids, Kid), |ids|)
  }

  function PageHead(): string {
    PAGE_TYPE + PAGE_BOX + PAGE_RESOURCES + PAGE_FONTS + CONTENTS_HEAD
  }

  function PageObject(content: nat): string {
    PageHead() + NatText(content) + REF_TAIL + DICT_END
  }

  function StreamObject(stream: string): string {
    LENGTH_HEAD + NatText(ByteLen(stream)) + STREAM_START + stream + STREAM_CLOSE
  }

  function FrontText(pages: nat, id: nat): string {
    if id == 0 then ""
    else if id == 1 then Catalog()
    else if id == 2 then PagesObject(KidIds(pages))
    else FONT_TYPE + FONT_NAME
  }

  function PageText(lines: seq<string>, id: nat): string
    requires 4 <= id < 4 + 2 * PageCount(|lines|)
  {
    if id % 2 == 0 then PageObject(id + 1)
    else StreamObject(TextStream(PageLines(lines, (id - 5) / 2)))
  }

  function ObjectText(lines: seq<string>, id: nat): string
    requires id < 4 + 2 * PageCount(|lines|)
  {
    if id < 4 then FrontText(PageCount(|lines|), id) else PageText(lines, id)
  }

  function TextOf(lines: seq<string>): nat -> string {
    (id: nat) => if id < 4 + 2 * PageCount(|lines|) then ObjectText(lines, id) else ""
  }

  function Listed(text: nat -> string, n: nat): (r: seq<string>)
    ensures |r| == n
    ensures forall i | 0 <= i < n :: r[i] == text(i)
  {
    seq(n, i requires 0 <= i < n => text(i))
  }

  function Objects(lines: seq<string>): (r: seq<string>)
    ensures |r| == 4 + 2 * PageCount(|lines|)
  {
    Listed(TextOf(lines), 4 + 2 * PageCount(|lines|))
  }

  // ------------------------------------------------------------ the file, as text

  function ObjectBytes(id: nat, text: string): string {
    NatText(id) + OBJECT_HEAD + text + OBJECT_TAIL
  }

  /** Header and objects 1 to `last`; object 0 is never written. */
  function Body(objects: seq<string>, last: nat): string
    requires last < |objects|
  {
    if last == 0 then HEADER else Body(objects, last - 1) + ObjectBytes(last, objects[last])
  }

  function Offset(objects: seq<string>, id: nat): nat
    requires 1 <= id < |objects|
  {
    |Body(objects, id - 1)|
  }

  function Entry(offset: nat): string {
    ZeroPadded(offset, 10) + ENTRY_TAIL
  }

  function Entries(objects: seq<string>, last: nat): string
    requires last < |objects|
  {
    if last == 0 then FREE_ENTRY else Entries(objects, last - 1) + Entry(Offset(objects, last))
  }

  function Trailer(size: nat): string {
    TRAILER_HEAD + NatText(size) + ROOT_HEAD + NatText(1) + REF_TAIL + DICT_END + "\n"
  }

  function Ending(start: nat): string {
    START_HEAD + NatText(start) + EOF_MARK
  }

  function XrefSection(size: nat, entries: string): string {
    XREF_HEAD + NatText(size) + "\n" + entries
  }

  function Assemble(body: string, entries: string, size: nat): string {
    body + XrefSection(size, entries) + Trailer(size) + Ending(|body|)
  }

  function Document(objects: seq<string>): string
    requires objects != []
  {
    Assemble(Body(objects, |objects| - 1), Entries(objects, |objects| - 1), |objects|)
  }

  // ------------------------------------------------------------------------ ASCII

  lemma DigitsAscii(s: string)
    requires AllDigits(s)
    ensures AllAscii(s)
  {
  }

  lemma AsciiFive(a: string, b: string, c: string, d: string, e: string)
    requires AllAscii(a) && AllAscii(b) && AllAscii(c) && AllAscii(d) && AllAscii(e)
    ensures AllAscii(a + b + c + d + e)
  {
    AsciiThree(a, b, c);
    AsciiThree(a + b + c, d, e);
  }

  lemma {:induction false} KidsAscii(ids: seq<nat>)
    ensures AllAscii(Join(Map(ids, Kid), " "))
  {
    if |ids| > 0 {
      AsciiConcat(NatText(ids[0]), REF_TAIL);
      DigitsAscii(NatText(ids[0]));
      if |ids| > 1 {
        KidsAscii(ids[1..]);
        MapFirst(ids, Kid);
        JoinCons(Kid(ids[0]), Map(ids[1..], Kid), " ");
        AsciiThree(Kid(ids[0]), " ", Join(Map(ids[1..], Kid), " "));
      }
    }
  }

  lemma KidsHeadAscii()
    ensures AllAscii(KIDS_HEAD)
  {
  }

  lemma CountHeadAscii()
    ensures AllAscii(COUNT_HEAD) && AllAscii(DICT_END)
  {
  }

  lemma PagesAscii(ids: seq<nat>)
    ensures AllAscii(PagesObject(ids))
  {
    KidsAscii(ids);
    KidsHeadAscii();
    CountHeadAscii();
    DigitsAscii(NatText(|ids|));
    AsciiFive(KIDS_HEAD, Join(Map(ids, Kid), " "), COUNT_HEAD, NatText(|ids|), DICT_END);
  }

  lemma PageTypeAscii()
    ensures AllAscii(PAGE_TYPE)
  {
  }

  lemma PageBoxAscii()
    ensures AllAscii(PAGE_BOX)
  {
  }

  lemma ContentsHeadAscii()
    ensures AllAscii(CONTENTS_HEAD)
  {
  }

  lemma PageFontsAscii()
    ensures AllAscii(PAGE_FONTS)
  {
  }

  lemma ResourcesAscii()
    ensures AllAscii(PAGE_RESOURCES)
  {
  }

  lemma PageHeadAscii()
    ensures AllAscii(PageHead())
  {
    PageTypeAscii();
    PageFontsAscii();
    PageBoxAscii();
    ContentsHeadAscii();
    ResourcesAscii();
    AsciiFive(PAGE_TYPE, PAGE_BOX, PAGE_RESOURCES, PAGE_FONTS, CONTENTS_HEAD);
  }

  lemma ReferenceAscii(head: string, id: nat)
    requires AllAscii(head)
    ensures AllAscii(head + NatText(id) + REF_TAIL + DICT_END)
  {
    DigitsAscii(NatText(id));
    AsciiThree(head, NatText(id), REF_TAIL);
    AsciiConcat(head + NatText(id) + REF_TAIL, DICT_END);
  }

  lemma PageAscii(content: nat)
    ensures AllAscii(PageObject(content))
  {
    PageHeadAscii();
    ReferenceAscii(PageHead(), content);
  }

  lemma ContentAscii(stream: string)
    requires AllAscii(stream)
    ensures AllAscii(StreamObject(stream))
  {
    DigitsAscii(NatText(ByteLen(stream)));
    AsciiFive(LENGTH_HEAD, NatText(ByteLen(stream)), STREAM_START, stream, STREAM_CLOSE);
  }

  lemma CatalogAscii()
    ensures AllAscii(Catalog())
  {
    ReferenceAscii(CATALOG_HEAD, 2);
  }

  lemma FontAscii()
    ensures AllAscii(FONT_TYPE + FONT_NAME)
  {
    AsciiConcat(FONT_TYPE, FONT_NAME);
  }

  lemma ObjectAscii(lines: seq<string>, id: nat)
    requires id < 4 + 2 * PageCount(|lines|)
    ensures AllAscii(ObjectText(lines, id))
  {
    if id == 2 {
      PagesAscii(KidIds(PageCount(|lines|)));
    } else if id < 4 {
      CatalogAscii();
      FontAscii();
    } else if id % 2 == 0 {
      PageAscii(id + 1);
    } else {
      StreamAscii(PageLines(lines, (id - 5) / 2));
      ContentAscii(TextStream(PageLines(lines, (id - 5) / 2)));
    }
  }

  predicate ObjectsAscii(objects: seq<string>) {
    forall i | 0 <= i < |objects| :: AllAscii(objects[i])
  }

  lemma AllObjectsAscii(lines: seq<string>)
    ensures ObjectsAscii(Objects(lines))
  {
    forall i | 0 <= i < |Objects(lines)| ensures AllAscii(Objects(lines)[i]) { ObjectAscii(lines, i); }
  }

  lemma ObjectBytesAscii(id: nat, text: string)
    requires AllAscii(text)
    ensures AllAscii(ObjectBytes(id, text))
  {
    DigitsAscii(NatText(id));
    AsciiThree(NatText(id), OBJECT_HEAD, text);
    AsciiConcat(NatText(id) + OBJECT_HEAD + text, OBJECT_TAIL);
  }

  /** Every character written before the table is one byte, so offsets count both. */
  lemma {:induction false} BodyAscii(objects: seq<string>, last: nat)
    requires last < |objects| && ObjectsAscii(objects)
    ensures AllAscii(Body(objects, last)) && ByteLen(Body(objects, last)) == |Body(objects, last)|
  {
    if last != 0 {
      BodyAscii(objects, last - 1);
      ObjectBytesAscii(last, objects[last]);
      AsciiConcat(Body(objects, last - 1), ObjectBytes(last, objects[last]));
    }
  }

  lemma EntryAscii(offset: nat)
    ensures AllAscii(Entry(offset))
  {
    DigitsAscii(ZeroPadded(offset, 10));
    AsciiConcat(ZeroPadded(offset, 10), ENTRY_TAIL);
  }

  lemma {:induction false} EntriesAscii(objects: seq<string>, last: nat)
    requires last < |objects|
    ensures AllAscii(Entries(objects, last))
  {
    if last != 0 {
      EntriesAscii(objects, last - 1);
      EntryAscii(Offset(objects, last));
      AsciiConcat(Entries(objects, last - 1), Entry(Offset(objects, last)));
    }
  }

  lemma NumberAscii(head: string, n: nat, tail: string)
    requires AllAscii(head) && AllAscii(tail)
    ensures AllAscii(head + NatText(n) + tail)
  {
    DigitsAscii(NatText(n));
    AsciiThree(head, NatText(n), tail);
  }

  lemma RootAscii(front: string)
    requires AllAscii(front)
    ensures AllAscii(front + NatText(1) + REF_TAIL + DICT_END + "\n")
  {
    ReferenceAscii(front, 1);
    AsciiConcat(front + NatText(1) + REF_TAIL + DICT_END, "\n");
  }

  lemma TrailerAscii(size: nat)
    ensures AllAscii(Trailer(size))
  {
    NumberAscii(TRAILER_HEAD, size, ROOT_HEAD);
    RootAscii(TRAILER_HEAD + NatText(size) + ROOT_HEAD);
  }

  lemma AssembledAscii(body: string, entries: string, size: nat)
    requires AllAscii(body) && AllAscii(entries)
    ensures AllAscii(Assemble(body, entries, size))
  {
    NumberAscii(XREF_HEAD, size, "\n");
    AsciiConcat(XREF_HEAD + NatText(size) + "\n", entries);
    TrailerAscii(size);
    NumberAscii(START_HEAD, |body|, EOF_MARK);
    AsciiThree(body, XrefSection(size, entries), Trailer(size));
    AsciiConcat(body + XrefSection(size, entries) + Trailer(size), Ending(|body|));
  }

  lemma ObjectsMakeAscii(objects: seq<string>)
    requires objects != [] && ObjectsAscii(objects)
    ensures AllAscii(Document(objects))
  {
    BodyAscii(objects, |objects| - 1);
    EntriesAscii(objects, |objects| - 1);
    AssembledAscii(Body(objects, |objects| - 1), Entries(objects, |objects| - 1), |objects|);
  }

  /** The whole file is ASCII: its characters are its bytes. */
  lemma DocumentAscii(lines: seq<string>)
    ensures AllAscii(Document(Objects(lines)))
  {
    AllObjectsAscii(lines);
    ObjectsMakeAscii(Objects(lines));
  }

  // ------------------------------------------------------------------- the writer

  lemma PageSlice(lines: seq<string>, page: nat)
    requires page < PageCount(|lines|)
    ensures var start := page * LINES_PER_PAGE;
            && start <= |lines|
            && lines[start..if start + LINES_PER_PAGE < |lines| then start + LINES_PER_PAGE else |lines|]
               == PageLines(lines, page)
  {
  }

  /** The stream of a page, from its slice of the lines. */
  method PageStream(lines: seq<string>, page: nat) returns (stream: string)
    requires page < PageCount(|lines|)
    ensures stream == TextStream(PageLines(lines, page))
  {
    var start := page * LINES_PER_PAGE;
    PageSlice(lines, page);
    var end := if start + LINES_PER_PAGE < |lines| then start + LINES_PER_PAGE else |lines|;
    stream := BuildPdfTextStream(lines[start..end]);
  }

  /** The first pages' objects are in place. */
  ghost predicate Filled(text: nat -> string, objects: seq<string>, pages: nat) {
    forall id: nat | 4 <= id < 4 + 2 * pages && id < |objects| :: objects[id] == text(id)
  }

  lemma FilledNext(text: nat -> string, before: seq<string>, page: nat)
    requires Filled(text, before, page) && 5 + 2 * page < |before|
    ensures Filled(text, before[4 + 2 * page := text(4 + 2 * page)][5 + 2 * page := text(5 + 2 * page)], page + 1)
  {
  }

  lemma Halves(page: nat)
    ensures (4 + 2 * page) % 2 == 0 && (5 + 2 * page) % 2 == 1 && (5 + 2 * page - 5) / 2 == page
  {
  }

  lemma PlacedTexts(lines: seq<string>, page: nat)
    requires page < PageCount(|lines|)
    ensures TextOf(lines)(4 + 2 * page) == PageObject(5 + 2 * page)
    ensures TextOf(lines)(5 + 2 * page) == StreamObject(TextStream(PageLines(lines, page)))
  {
    Halves(page);
    assert TextOf(lines)(4 + 2 * page) == PageText(lines, 4 + 2 * page);
    assert TextOf(lines)(5 + 2 * page) == PageText(lines, 5 + 2 * page);
  }

  lemma KidsNext(page: nat)
    ensures Map(KidIds(page + 1), Kid) == Map(KidIds(page), Kid) + [Kid(4 + 2 * page)]
  {
    assert KidIds(page + 1) == KidIds(page) + [4 + 2 * page];
  }

  lemma FilledAll(text: nat -> string, objects: seq<string>, pages: nat)
    requires |objects| == 4 + 2 * pages && Filled(text, objects, pages)
    requires objects[0] == text(0) && objects[1] == text(1) && objects[2] == text(2) && objects[3] == text(3)
    ensures objects == Listed(text, 4 + 2 * pages)
  {
    forall id: nat | id < |objects| ensures objects[id] == Listed(text, 4 + 2 * pages)[id] {
      assert id < 4 ==> id == 0 || id == 1 || id == 2 || id == 3;
    }
  }

  lemma FixedTexts(lines: seq<string>)
    ensures TextOf(lines)(0) == "" && TextOf(lines)(1) == Catalog() && TextOf(lines)(3) == FONT_TYPE + FONT_NAME
    ensures TextOf(lines)(2) == PagesObject(KidIds(PageCount(|lines|)))
  {
  }

  /** One turn of the page loop: the page object and, behind it, its text. */
  method PlacePage(lines: seq<string>, objects: array<string>, page: nat)
    requires objects.Length == 4 + 2 * PageCount(|lines|) && page < PageCount(|lines|)
    requires Filled(TextOf(lines), objects[..], page)
    modifies objects
    ensures Filled(TextOf(lines), objects[..], page + 1)
    ensures objects[..4] == old(objects[..4])
  {
    var stream := PageStream(lines, page);
    ghost var was := objects[..];
    FilledNext(TextOf(lines), was, page);
    PlacedTexts(lines, page);
    var id := 4 + page * 2;
    objects[id] := PageObject(id + 1);
    objects[id + 1] := StreamObject(stream);
    assert objects[..] == was[4 + 2 * page := TextOf(lines)(4 + 2 * page)][5 + 2 * page := TextOf(lines)(5 + 2 * page)];
  }

  /** The page loop of `build_archive_pdf`. */
  method PlacePages(lines: seq<string>, objects: array<string>) returns (kids: seq<string>)
    requires objects.Length == 4 + 2 * PageCount(|lines|)
    modifies objects
    ensures kids == Map(KidIds(PageCount(|lines|)), Kid)
    ensures Filled(TextOf(lines), objects[..], PageCount(|lines|))
    ensures objects[..4] == old(objects[..4])
  {
    var pages := PageCount(|lines|);
    kids := [];
    for page := 0 to pages
      invariant kids == Map(KidIds(page), Kid)
      invariant Filled(TextOf(lines), objects[..], page)
      invariant objects[..4] == old(objects[..4])
    {
      PlacePage(lines, objects, page);
      kids := kids + [Kid(4 + page * 2)];
      KidsNext(page);
    }
  }

  /** The objects, filled in the source's order: the page tree's root last. */
  method FillObjects(lines: seq<string>, objects: array<string>)
    requires objects.Length == 4 + 2 * PageCount(|lines|)
    requires objects[0] == ""
    modifies objects
    ensures objects[..] == Objects(lines)
  {
    objects[1] := Catalog();
    objects[3] := FONT_TYPE + FONT_NAME;
    ghost var front := objects[..4];
    var kids := PlacePages(lines, objects);
    assert objects[0] == front[0] && objects[1] == front[1] && objects[3] == front[3];
    objects[2] := PagesText(kids, PageCount(|lines|));
    FixedTexts(lines);
    FilledAll(TextOf(lines), objects[..], PageCount(|lines|));
  }

  method WriteBody(objects: array<string>, offsets: array<nat>, ghost texts: seq<string>) returns (out: string)
    requires objects.Length > 0 && offsets.Length == objects.Length
    requires objects[..] == texts && ObjectsAscii(texts)
    modifies offsets
    ensures out == Body(texts, |texts| - 1) && ByteLen(out) == |out|
    ensures forall id | 1 <= id < offsets.Length :: offsets[id] == Offset(texts, id)
  {
    out := HEADER;
    for id := 1 to objects.Length
      invariant objects[..] == texts && out == Body(texts, id - 1)
      invariant forall k | 1 <= k < id :: offsets[k] == Offset(texts, k)
    {
      BodyAscii(texts, id - 1);
      offsets[id] := ByteLen(out);
      assert objects[id] == texts[id];
      out := out + (NatText(id) + OBJECT_HEAD + objects[id] + OBJECT_TAIL);
    }
    BodyAscii(texts, |texts| - 1);
  }

  lemma NoEntriesYet(objects: seq<string>)
    requires objects != []
    ensures Entries(objects, 0) == FREE_ENTRY
  {
  }

  lemma EntriesNext(objects: seq<string>, id: nat)
    requires 1 <= id < |objects|
    ensures Entries(objects, id) == Entries(objects, id - 1) + Entry(Offset(objects, id))
  {
  }

  method WriteEntries(offsets: array<nat>, ghost objects: seq<string>) returns (table: string)
    requires offsets.Length == |objects| > 0
    requires forall id | 1 <= id < offsets.Length :: offsets[id] == Offset(objects, id)
    ensures table == Entries(objects, |objects| - 1)
  {
    table := FREE_ENTRY;
    NoEntriesYet(objects);
    for id := 1 to offsets.Length
      invariant table == Entries(objects, id - 1)
    {
      EntriesNext(objects, id);
      table := table + Entry(offsets[id]);
    }
  }

  method WriteTail(body: string, entries: string, size: nat) returns (out: string)
    requires ByteLen(body) == |body|
    ensures out == Assemble(body, entries, size)
  {
    var xrefOffset := ByteLen(body);
    out := body + XrefSection(size, entries);
    out := out + Trailer(size);
    out := out + Ending(xrefOffset);
  }

  method WriteTable(body: string, offsets: array<nat>, ghost texts: seq<string>) returns (out: string)
    requires offsets.Length == |texts| > 0 && ByteLen(body) == |body|
    requires body == Body(texts, |texts| - 1)
    requires forall id | 1 <= id < offsets.Length :: offsets[id] == Offset(texts, id)
    ensures out == Document(texts)
  {
    var entries := WriteEntries(offsets, texts);
    out := WriteTail(body, entries, offsets.Length);
  }

  method WriteDocument(objects: array<string>, ghost texts: seq<string>) returns (out: string)
    requires objects.Length > 0 && objects[..] == texts && ObjectsAscii(texts)
    ensures out == Document(texts)
  {
    var offsets := new nat[objects.Length];
    var body := WriteBody(objects, offsets, texts);
    out := WriteTable(body, offsets, texts);
  }

  /** `build_archive_pdf`, from the lines of the report. */
  method BuildArchivePdf(lines: seq<string>) returns (out: string)
    ensures out == Document(Objects(lines))
  {
    var count := 3 + PageCount(|lines|) * 2;
    var objects := new string[count + 1](_ => "");
    FillObjects(lines, objects);
    AllObjectsAscii(lines);
    out := WriteDocument(objects, Objects(lines));
  }
}
