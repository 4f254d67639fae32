/**
 * The reservation site's HTML pages read into a JSON-style dictionary
 * (`parse_html_content`). The HTML parser itself is not modelled: a page is
 * given by what the program's CSS selections return, in document order.
 */
module Parsers {
  import opened Text
  import opened Dict

  /** A `<td>`: its text, the `href` of each `<a>` inside it (None when absent) and its attributes. */
  datatype Cell = Cell(text: string, linkHrefs: seq<Option<string>>, attributes: seq<(string, string)>)

  /**
   * A facility table: the texts of its `thead th` cells, of all its `th`
   * cells, and the `td` cells of each `tbody tr` row.
   */
  datatype Table = Table(theadHeaders: seq<string>, allHeaders: seq<string>, bodyRows: seq<seq<Cell>>)

  /** What the parser selects from a page; each sequence holds element texts in document order. */
  datatype Document = Document(
    title: Option<string>,         // text of `<title>`, None when the page has none
    pageHeaderH2: seq<string>,     // `.page-header h2`
    pageBodies: seq<string>,       // `.page-body`
    tables: seq<Table>,            // `table.table-hover, table.table-bordered`
    dateTerms: seq<string>,        // `.dateTerm, .date-term`
    sections: seq<string>,         // `.card-header, .section-header`
    alerts: seq<string>)           // `.alert, .error-message`

  /** A page the parser reads, or one on which it raises (with the exception's message). */
  datatype Html = Markup(doc: Document) | Malformed(reason: string)

  const ErrorMarker := "処理を続行いただけません"
  const NoTitle := "无标题"
  const ParseFailedTitle := "解析失败"
  const UnknownError := "未知错误"

  function TitleText(doc: Document): string {
    if doc.title.Some? then doc.title.value else NoTitle
  }

  /** The site's "cannot continue processing" page. */
  predicate IsErrorPage(doc: Document) {
    |doc.pageHeaderH2| > 0 && Contains(doc.pageHeaderH2[0], ErrorMarker)
  }

  function ErrorMessage(doc: Document): string {
    if |doc.pageBodies| > 0 then Strip(doc.pageBodies[0]) else UnknownError
  }

  function StripAll(s: seq<string>): (r: seq<string>)
    ensures |r| == |s| && forall i :: 0 <= i < |s| ==> r[i] == Strip(s[i])
  {
    seq(|s|, i requires 0 <= i < |s| => Strip(s[i]))
  }

  /** Header names: the `thead` cells, or all `th` cells when the table has no `thead` cells. */
  function HeaderTexts(t: Table): seq<string> {
    StripAll(if t.theadHeaders != [] then t.theadHeaders else t.allHeaders)
  }

  /**
   * A table has no header names only when it has no `th` cells at all; the
   * `thead` cells win whenever there are any.
   */
  lemma HeaderSource(t: Table)
    ensures HeaderTexts(t) == [] <==> t.theadHeaders == [] && t.allHeaders == []
    ensures t.theadHeaders != [] ==>
      |HeaderTexts(t)| == |t.theadHeaders| && forall i :: 0 <= i < |t.theadHeaders| ==> HeaderTexts(t)[i] == Strip(t.theadHeaders[i])
    ensures t.theadHeaders == [] ==>
      |HeaderTexts(t)| == |t.allHeaders| && forall i :: 0 <= i < |t.allHeaders| ==> HeaderTexts(t)[i] == Strip(t.allHeaders[i])
  {
  }

  /** A header made into a key: ASCII and ideographic spaces become `_`. */
  function HeaderKey(h: string): (k: string)
    ensures |k| == |h|
    ensures ' ' !in k && '\U{3000}' !in k
    ensures forall i :: 0 <= i < |h| && h[i] != ' ' && h[i] != '\U{3000}' ==> k[i] == h[i]
    ensures forall i :: 0 <= i < |h| && (h[i] == ' ' || h[i] == '\U{3000}') ==> k[i] == '_'
  {
    ReplaceChar(ReplaceChar(h, ' ', '_'), '\U{3000}', '_')
  }

  function LinkValue(href: Option<string>): Json {
    if href.Some? then JStr(href.value) else JNull
  }

  /** The writes for a cell's `data-*` attributes, in attribute order. */
  function DataWrites(key: string, attrs: seq<(string, string)>): seq<(string, Json)> {
    if attrs == [] then []
    else
      DataWrites(key, attrs[..|attrs| - 1]) + AttrWrite(key, attrs[|attrs| - 1])
  }

  /** The write for one attribute of a mapped cell: `<key>_<name>` for a `data-*` attribute, none otherwise. */
  function AttrWrite(key: string, attr: (string, string)): seq<(string, Json)> {
    if StartsWith(attr.0, "data-") then [(key + "_" + attr.0, JStr(attr.1))] else []
  }

  /** The writes of one mapped cell before its attributes: its text and the first link's target. */
  function CellHeadWrites(key: string, cell: Cell): seq<(string, Json)> {
    [(key, JStr(Strip(cell.text)))] + (if cell.linkHrefs != [] then [(key + "_link", LinkValue(cell.linkHrefs[0]))] else [])
  }

  function CellWrites(key: string, cell: Cell): seq<(string, Json)> {
    CellHeadWrites(key, cell) + DataWrites(key, cell.attributes)
  }

  /** The writes a row makes into its facility dictionary; cells past the last header write nothing. */
  function RowWrites(headers: seq<string>, cells: seq<Cell>): seq<(string, Json)> {
    if cells == [] then []
    else
      var i := |cells| - 1;
      RowWrites(headers, cells[..i]) + (if i < |headers| then CellWrites(HeaderKey(headers[i]), cells[i]) else [])
  }

  function RowFacility(headers: seq<string>, cells: seq<Cell>): Dict<Json> {
    PutAll([], RowWrites(headers, cells))
  }

  /** The non-empty facility dictionaries of some rows, in row order. */
  function RowFacilities(headers: seq<string>, rows: seq<seq<Cell>>): seq<Dict<Json>> {
    if rows == [] then []
    else
      var f := RowFacility(headers, rows[|rows| - 1]);
      RowFacilities(headers, rows[..|rows| - 1]) + (if f != [] then [f] else [])
  }

  /** The facilities of all tables, table by table. */
  function Facilities(tables: seq<Table>): seq<Dict<Json>> {
    if tables == [] then []
    else
      var t := tables[|tables| - 1];
      Facilities(tables[..|tables| - 1]) + RowFacilities(HeaderTexts(t), t.bodyRows)
  }

  function Objects(fs: seq<Dict<Json>>): (r: seq<Json>)
    ensures |r| == |fs| && forall i :: 0 <= i < |fs| ==> r[i] == JObject(fs[i])
  {
    seq(|fs|, i requires 0 <= i < |fs| => JObject(fs[i]))
  }

  function Strings(s: seq<string>): (r: seq<Json>)
    ensures |r| == |s| && forall i :: 0 <= i < |s| ==> r[i] == JStr(s[i])
  {
    seq(|s|, i requires 0 <= i < |s| => JStr(s[i]))
  }

  /** The key a section header's (stripped) text is filed under, if any; the first test that matches wins. */
  function SectionKey(text: string): Option<string> {
    if Contains(text, "区") then Some("area_info")
    else if Contains(text, "施設") || Contains(text, "設備") then Some("facility_type")
    else if Contains(text, "用途") then Some("purpose_info")
    else None
  }

  function SectionWrites(sections: seq<string>): seq<(string, Json)> {
    if sections == [] then []
    else
      var text := Strip(sections[|sections| - 1]);
      var k := SectionKey(text);
      SectionWrites(sections[..|sections| - 1]) + (if k.Some? then [(k.value, JStr(text))] else [])
  }

  function FacilitiesWrite(tables: seq<Table>): seq<(string, Json)> {
    var fs := Facilities(tables);
    if fs != [] then [("facilities", JList(Objects(fs)))] else []
  }

  function DateWrite(doc: Document): seq<(string, Json)> {
    if doc.dateTerms != [] then [("date_range", JStr(Strip(doc.dateTerms[0])))] else []
  }

  function WarningsWrite(doc: Document): seq<(string, Json)> {
    if doc.alerts != [] then [("warnings", JList(Strings(StripAll(doc.alerts))))] else []
  }

  function Envelope(doc: Document): Dict<Json> {
    [("html_content", JBool(true)), ("title", JStr(TitleText(doc)))]
  }

  /** The dictionary `parse_html_content` returns for a page. */
  function ParseResult(html: Html): Dict<Json> {
    match html
    case Malformed(reason) =>
      [("html_content", JBool(true)), ("title", JStr(ParseFailedTitle)), ("error", JStr(reason))]
    case Markup(doc) =>
      if IsErrorPage(doc) then
        Envelope(doc) + [("error", JBool(true)), ("error_message", JStr(ErrorMessage(doc)))]
      else
        PutAll(Envelope(doc), BodyWrites(doc))
  }

  /** The writes for a regular page after the title, in program order. */
  function BodyWrites(doc: Document): seq<(string, Json)> {
    FacilitiesWrite(doc.tables) + DateWrite(doc) + SectionWrites(doc.sections) + WarningsWrite(doc)
  }

  // ----- the parser -----

  /** One more assignment extends the run of writes that produced `d`. */
  lemma PutStep(base: Dict<Json>, w: seq<(string, Json)>, k: string, v: Json)
    ensures Put(PutAll(base, w), k, v) == PutAll(base, w + [(k, v)])
  {
    PutAllLast(base, w + [(k, v)]);
    assert (w + [(k, v)])[..|w|] == w;
  }

  /** The assignment for one attribute: made only for a `data-*` attribute. */
  function FileAttribute(r: Dict<Json>, key: string, attr: (string, string)): Dict<Json> {
    if StartsWith(attr.0, "data-") then Put(r, key + "_" + attr.0, JStr(attr.1)) else r
  }

  lemma FileAttributeStep(base: Dict<Json>, head: seq<(string, Json)>, key: string, attrs: seq<(string, string)>, a: nat)
    requires a < |attrs|
    ensures FileAttribute(PutAll(base, head + DataWrites(key, attrs[..a])), key, attrs[a])
      == PutAll(base, head + DataWrites(key, attrs[..a + 1]))
  {
    var before := DataWrites(key, attrs[..a]);
    var attr := attrs[a];
    DataWritesStep(key, attrs, a);
    AppendAssoc(head, before, AttrWrite(key, attr));
    if StartsWith(attr.0, "data-") {
      PutStep(base, head + before, key + "_" + attr.0, JStr(attr.1));
    } else {
      AppendNothing(head + before, AttrWrite(key, attr));
    }
  }

  lemma DataWritesStep(key: string, attrs: seq<(string, string)>, a: nat)
    requires a < |attrs|
    ensures DataWrites(key, attrs[..a + 1]) == DataWrites(key, attrs[..a]) + AttrWrite(key, attrs[a])
  {
    assert attrs[..a + 1][..a] == attrs[..a];
  }

  lemma CellHeadStep(facility: Dict<Json>, key: string, cell: Cell)
    ensures (var r := Put(facility, key, JStr(Strip(cell.text)));
             if cell.linkHrefs != [] then Put(r, key + "_link", LinkValue(cell.linkHrefs[0])) else r)
      == PutAll(facility, CellHeadWrites(key, cell) + DataWrites(key, cell.attributes[..0]))
  {
    PutStep(facility, [], key, JStr(Strip(cell.text)));
    if cell.linkHrefs != [] {
      PutStep(facility, [(key, JStr(Strip(cell.text)))], key + "_link", LinkValue(cell.linkHrefs[0]));
    }
    assert CellHeadWrites(key, cell) + DataWrites(key, cell.attributes[..0]) == CellHeadWrites(key, cell);
  }

  /** The assignments for one mapped cell: its text, its first link and its `data-*` attributes. */
  method WriteCell(facility: Dict<Json>, key: string, cell: Cell) returns (r: Dict<Json>)
    ensures r == PutAll(facility, CellWrites(key, cell))
  {
    r := WriteCellHead(facility, key, cell);
    r := WriteDataAttributes(facility, key, cell, r);
  }

  /** The cell's text under its key, then its first link under `key_link`. */
  method WriteCellHead(facility: Dict<Json>, key: string, cell: Cell) returns (r: Dict<Json>)
    ensures r == PutAll(facility, CellHeadWrites(key, cell) + DataWrites(key, cell.attributes[..0]))
  {
    CellHeadStep(facility, key, cell);
    r := Put(facility, key, JStr(Strip(cell.text)));
    if cell.linkHrefs != [] {
      r := Put(r, key + "_link", LinkValue(cell.linkHrefs[0]));
    }
  }

  /** The cell's `data-*` attributes, each under `key_name`, after its text and link. */
  method WriteDataAttributes(facility: Dict<Json>, key: string, cell: Cell, head: Dict<Json>) returns (r: Dict<Json>)
    requires head == PutAll(facility, CellHeadWrites(key, cell) + DataWrites(key, cell.attributes[..0]))
    ensures r == PutAll(facility, CellWrites(key, cell))
  {
    r := head;
    for a := 0 to |cell.attributes|
      invariant r == PutAll(facility, CellHeadWrites(key, cell) + DataWrites(key, cell.attributes[..a]))
    {
      FileAttributeStep(facility, CellHeadWrites(key, cell), key, cell.attributes, a);
      var attr := cell.attributes[a];
      if StartsWith(attr.0, "data-") {
        r := Put(r, key + "_" + attr.0, JStr(attr.1));
      }
    }
    assert cell.attributes[..|cell.attributes|] == cell.attributes;
  }

  lemma RowWritesStep(headers: seq<string>, cells: seq<Cell>, i: nat)
    requires i < |cells|
    ensures RowWrites(headers, cells[..i + 1])
      == RowWrites(headers, cells[..i]) + (if i < |headers| then CellWrites(HeaderKey(headers[i]), cells[i]) else [])
  {
    assert cells[..i + 1][..i] == cells[..i];
  }

  /** One row's facility dictionary, cell by cell; cells past the last header are skipped. */
  method FillFacility(headers: seq<string>, cells: seq<Cell>) returns (facility: Dict<Json>)
    ensures facility == RowFacility(headers, cells)
  {
    facility := [];
    for i := 0 to |cells|
      invariant facility == PutAll([], RowWrites(headers, cells[..i]))
    {
      RowWritesStep(headers, cells, i);
      if i < |headers| {
        PutAllAppend([], RowWrites(headers, cells[..i]), CellWrites(HeaderKey(headers[i]), cells[i]));
        facility := WriteCell(facility, HeaderKey(headers[i]), cells[i]);
      } else {
        assert RowWrites(headers, cells[..i + 1]) == RowWrites(headers, cells[..i]);
      }
    }
    assert cells[..|cells|] == cells;
  }

  lemma RowFacilitiesStep(headers: seq<string>, rows: seq<seq<Cell>>, r: nat)
    requires r < |rows|
    ensures RowFacilities(headers, rows[..r + 1]) == RowFacilities(headers, rows[..r])
      + (if RowFacility(headers, rows[r]) != [] then [RowFacility(headers, rows[r])] else [])
  {
    assert rows[..r + 1][..r] == rows[..r];
  }

  lemma FacilitiesStep(tables: seq<Table>, t: nat)
    requires t < |tables|
    ensures Facilities(tables[..t + 1]) == Facilities(tables[..t]) + RowFacilities(HeaderTexts(tables[t]), tables[t].bodyRows)
  {
    assert tables[..t + 1][..t] == tables[..t];
  }

  /** One table's facilities, row by row, dropping rows that yield an empty dictionary. */
  method TableFacilities(headers: seq<string>, rows: seq<seq<Cell>>) returns (facilities: seq<Dict<Json>>)
    ensures facilities == RowFacilities(headers, rows)
  {
    facilities := [];
    for r := 0 to |rows|
      invariant facilities == RowFacilities(headers, rows[..r])
    {
      RowFacilitiesStep(headers, rows, r);
      var facility := FillFacility(headers, rows[r]);
      if facility != [] {
        facilities := facilities + [facility];
      }
    }
    assert rows[..|rows|] == rows;
  }

  /** The facilities of every table, table by table. */
  method CollectFacilities(tables: seq<Table>) returns (facilities: seq<Dict<Json>>)
    ensures facilities == Facilities(tables)
  {
    facilities := [];
    for t := 0 to |tables|
      invariant facilities == Facilities(tables[..t])
    {
      FacilitiesStep(tables, t);
      var more := TableFacilities(HeaderTexts(tables[t]), tables[t].bodyRows);
      facilities := facilities + more;
    }
    assert tables[..|tables|] == tables;
  }

  /** The section header at index `s`, filed. */
  function FileSection(r: Dict<Json>, text: string): Dict<Json> {
    var k := SectionKey(text);
    if k.Some? then Put(r, k.value, JStr(text)) else r
  }

  lemma FileSectionStep(result: Dict<Json>, sections: seq<string>, s: nat)
    requires s < |sections|
    ensures FileSection(PutAll(result, SectionWrites(sections[..s])), Strip(sections[s]))
      == PutAll(result, SectionWrites(sections[..s + 1]))
  {
    assert sections[..s + 1][..s] == sections[..s];
    var text := Strip(sections[s]);
    var k := SectionKey(text);
    if k.Some? {
      PutStep(result, SectionWrites(sections[..s]), k.value, JStr(text));
    } else {
      assert SectionWrites(sections[..s + 1]) == SectionWrites(sections[..s]);
    }
  }

  /** The section headers filed under `area_info`, `facility_type` or `purpose_info`. */
  method FileSections(result: Dict<Json>, sections: seq<string>) returns (r: Dict<Json>)
    ensures r == PutAll(result, SectionWrites(sections))
  {
    r := result;
    for s := 0 to |sections|
      invariant r == PutAll(result, SectionWrites(sections[..s]))
    {
      FileSectionStep(result, sections, s);
      var text := Strip(sections[s]);
      var k := SectionKey(text);
      if k.Some? {
        r := Put(r, k.value, JStr(text));
      }
    }
    assert sections[..|sections|] == sections;
  }

  lemma PutAllSingle(d: Dict<Json>, k: string, v: Json)
    ensures PutAll(d, [(k, v)]) == Put(d, k, v)
  {
    assert [(k, v)][1..] == [];
  }

  lemma PutAllFour(d: Dict<Json>, w1: seq<(string, Json)>, w2: seq<(string, Json)>, w3: seq<(string, Json)>, w4: seq<(string, Json)>)
    ensures PutAll(PutAll(PutAll(PutAll(d, w1), w2), w3), w4) == PutAll(d, w1 + w2 + w3 + w4)
  {
    PutAllAppend(d, w1, w2);
    PutAllAppend(d, w1 + w2, w3);
    PutAllAppend(d, w1 + w2 + w3, w4);
  }

  /** `parse_html_content`: the page's title, error state, facilities, dates, sections and warnings. */
  method ParseHtmlContent(html: Html) returns (result: Dict<Json>)
    ensures result == ParseResult(html)
  {
    if html.Malformed? {
      return [("html_content", JBool(true)), ("title", JStr(ParseFailedTitle)), ("error", JStr(html.reason))];
    }
    var doc := html.doc;
    result := [("html_content", JBool(true)), ("title", JStr(TitleText(doc)))];
    if IsErrorPage(doc) {
      result := Put(result, "error", JBool(true));
      result := Put(result, "error_message", JStr(ErrorMessage(doc)));
      ErrorPageWrites(doc);
      return;
    }
    result := FileBody(doc, result);
  }

  /** On an error page the two error entries come after the title. */
  lemma ErrorPageWrites(doc: Document)
    ensures Put(Put(Envelope(doc), "error", JBool(true)), "error_message", JStr(ErrorMessage(doc)))
      == Envelope(doc) + [("error", JBool(true)), ("error_message", JStr(ErrorMessage(doc)))]
  {
    var e := Envelope(doc);
    assert Keys(e)[0] == "html_content" && Keys(e)[1] == "title";
    PutTwoFresh(e, ("error", JBool(true)), ("error_message", JStr(ErrorMessage(doc))));
  }

  /** A regular page: facilities, date range, sections and warnings, each written when present. */
  method FileBody(doc: Document, envelope: Dict<Json>) returns (result: Dict<Json>)
    ensures result == PutAll(envelope, BodyWrites(doc))
  {
    result := envelope;
    var facilities := CollectFacilities(doc.tables);
    if facilities != [] {
      result := Put(result, "facilities", JList(Objects(facilities)));
      PutAllSingle(envelope, "facilities", JList(Objects(facilities)));
    }
    assert result == PutAll(envelope, FacilitiesWrite(doc.tables));
    ghost var r1 := result;
    if doc.dateTerms != [] {
      result := Put(result, "date_range", JStr(Strip(doc.dateTerms[0])));
      PutAllSingle(r1, "date_range", JStr(Strip(doc.dateTerms[0])));
    }
    assert result == PutAll(r1, DateWrite(doc));
    result := FileSections(result, doc.sections);
    ghost var r3 := result;
    if doc.alerts != [] {
      result := Put(result, "warnings", JList(Strings(StripAll(doc.alerts))));
      PutAllSingle(r3, "warnings", JList(Strings(StripAll(doc.alerts))));
    }
    assert result == PutAll(r3, WarningsWrite(doc));
    PutAllFour(envelope, FacilitiesWrite(doc.tables), DateWrite(doc), SectionWrites(doc.sections), WarningsWrite(doc));
  }

  // ----- properties of the result -----

  predicate IsSectionKey(k: string) {
    k == "area_info" || k == "facility_type" || k == "purpose_info"
  }

  /** The last write to `k` in a regular page's body writes comes from the one part that writes `k`. */
  lemma BodyLastWrite(doc: Document, k: string)
    ensures LastWrite(BodyWrites(doc), k) ==
      if k == "facilities" then LastWrite(FacilitiesWrite(doc.tables), k)
      else if k == "date_range" then LastWrite(DateWrite(doc), k)
      else if k == "warnings" then LastWrite(WarningsWrite(doc), k)
      else LastWrite(SectionWrites(doc.sections), k)
  {
    var f, d, s, w := FacilitiesWrite(doc.tables), DateWrite(doc), SectionWrites(doc.sections), WarningsWrite(doc);
    LastWriteOfFour(f, d, s, w, k);
    if k != "facilities" {
      FacilitiesWriteOther(doc.tables, k);
    }
    if k != "date_range" {
      DateWriteOther(doc, k);
    }
    if k != "warnings" {
      WarningsWriteOther(doc, k);
    }
    if !IsSectionKey(k) {
      SectionLastWriteNone(doc.sections, k);
    }
  }

  /** Only the three section keys are ever filed from section headers. */
  lemma {:induction false} SectionLastWriteNone(sections: seq<string>, k: string)
    requires !IsSectionKey(k)
    ensures LastWrite(SectionWrites(sections), k).None?
  {
    if sections != [] {
      var init := sections[..|sections| - 1];
      SectionLastWriteNone(init, k);
      var text := Strip(sections[|sections| - 1]);
      var tail := if SectionKey(text).Some? then [(SectionKey(text).value, JStr(text))] else [];
      LastWriteAppend(SectionWrites(init), tail, k);
    }
  }

  /**
   * Every result says `html_content` is true and carries a title: the page's,
   * the placeholder for a page without one, or the parse-failure title.
   */
  lemma ParseEnvelope(html: Html)
    ensures Lookup(ParseResult(html), "html_content") == Some(JBool(true))
    ensures Lookup(ParseResult(html), "title")
      == Some(JStr(if html.Malformed? then ParseFailedTitle else TitleText(html.doc)))
    ensures html.Malformed? ==> Lookup(ParseResult(html), "error") == Some(JStr(html.reason))
  {
    if html.Malformed? {
      var r := ParseResult(html);
      assert Lookup(r, "error") == Lookup(r[1..], "error") == Lookup(r[2..], "error");
    }
    if html.Markup? && !IsErrorPage(html.doc) {
      var doc := html.doc;
      BodyLastWrite(doc, "html_content");
      BodyLastWrite(doc, "title");
      SectionLastWriteNone(doc.sections, "html_content");
      SectionLastWriteNone(doc.sections, "title");
      LookupPutAll(Envelope(doc), BodyWrites(doc), "html_content");
      LookupPutAll(Envelope(doc), BodyWrites(doc), "title");
    }
  }

  /** The error page yields exactly the envelope, the error flag and the page body's message. */
  lemma ErrorPageResult(doc: Document)
    requires IsErrorPage(doc)
    ensures Keys(ParseResult(Markup(doc))) == ["html_content", "title", "error", "error_message"]
    ensures Lookup(ParseResult(Markup(doc)), "error") == Some(JBool(true))
    ensures Lookup(ParseResult(Markup(doc)), "error_message") == Some(JStr(ErrorMessage(doc)))
  {
    var r := ParseResult(Markup(doc));
    assert Keys(r) == [r[0].0, r[1].0, r[2].0, r[3].0];
    assert Lookup(r, "error") == Lookup(r[1..], "error") == Lookup(r[2..], "error");
    assert Lookup(r, "error_message") == Lookup(r[1..], "error_message") == Lookup(r[2..], "error_message")
      == Lookup(r[3..], "error_message");
  }

  /** A regular page has `facilities` exactly when some table row yields a facility, holding them all in order. */
  lemma FacilitiesEntry(doc: Document)
    requires !IsErrorPage(doc)
    ensures Lookup(ParseResult(Markup(doc)), "facilities")
      == if Facilities(doc.tables) != [] then Some(JList(Objects(Facilities(doc.tables)))) else None
  {
    BodyLookup(doc, "facilities");
    BodyLastWrite(doc, "facilities");
    FacilitiesWriteLast(doc.tables);
  }

  /** `date_range` is the first date term's stripped text, present exactly when the page has one. */
  lemma DateRangeEntry(doc: Document)
    requires !IsErrorPage(doc)
    ensures Lookup(ParseResult(Markup(doc)), "date_range")
      == if doc.dateTerms != [] then Some(JStr(Strip(doc.dateTerms[0]))) else None
  {
    BodyLookup(doc, "date_range");
    BodyLastWrite(doc, "date_range");
    DateWriteLast(doc);
  }

  /** `warnings` lists every alert's stripped text, present exactly when the page has alerts. */
  lemma WarningsEntry(doc: Document)
    requires !IsErrorPage(doc)
    ensures Lookup(ParseResult(Markup(doc)), "warnings")
      == if doc.alerts != [] then Some(JList(Strings(StripAll(doc.alerts)))) else None
  {
    BodyLookup(doc, "warnings");
    BodyLastWrite(doc, "warnings");
    WarningsWriteLast(doc);
  }

  /** Outside the envelope's two keys, a regular page's entry is the body's last write of it. */
  lemma BodyLookup(doc: Document, k: string)
    requires !IsErrorPage(doc)
    requires k != "html_content" && k != "title"
    ensures Lookup(ParseResult(Markup(doc)), k) == LastWrite(BodyWrites(doc), k)
  {
    LookupPutAll(Envelope(doc), BodyWrites(doc), k);
    EnvelopeLookup(doc, k);
  }

  lemma FacilitiesWriteOther(tables: seq<Table>, k: string)
    requires k != "facilities"
    ensures LastWrite(FacilitiesWrite(tables), k).None?
  {
    LastWriteOnly(FacilitiesWrite(tables), "facilities", k);
  }

  lemma DateWriteOther(doc: Document, k: string)
    requires k != "date_range"
    ensures LastWrite(DateWrite(doc), k).None?
  {
    LastWriteOnly(DateWrite(doc), "date_range", k);
  }

  lemma WarningsWriteOther(doc: Document, k: string)
    requires k != "warnings"
    ensures LastWrite(WarningsWrite(doc), k).None?
  {
    LastWriteOnly(WarningsWrite(doc), "warnings", k);
  }

  lemma FacilitiesWriteLast(tables: seq<Table>)
    ensures LastWrite(FacilitiesWrite(tables), "facilities")
      == if Facilities(tables) != [] then Some(JList(Objects(Facilities(tables)))) else None
  {
  }

  lemma DateWriteLast(doc: Document)
    ensures LastWrite(DateWrite(doc), "date_range")
      == if doc.dateTerms != [] then Some(JStr(Strip(doc.dateTerms[0]))) else None
  {
  }

  lemma WarningsWriteLast(doc: Document)
    ensures LastWrite(WarningsWrite(doc), "warnings")
      == if doc.alerts != [] then Some(JList(Strings(StripAll(doc.alerts)))) else None
  {
  }

  /** The last section header (stripped) filed under `key`, searching from the end. */
  function LastFiled(sections: seq<string>, key: string): Option<string> {
    if sections == [] then None
    else
      var text := Strip(sections[|sections| - 1]);
      if SectionKey(text) == Some(key) then Some(text) else LastFiled(sections[..|sections| - 1], key)
  }

  lemma {:induction false} SectionWritesLast(sections: seq<string>, key: string)
    ensures LastWrite(SectionWrites(sections), key)
      == if LastFiled(sections, key).Some? then Some(JStr(LastFiled(sections, key).value)) else None
  {
    if sections != [] {
      var init := sections[..|sections| - 1];
      var text := Strip(sections[|sections| - 1]);
      var tail := if SectionKey(text).Some? then [(SectionKey(text).value, JStr(text))] else [];
      SectionWritesLast(init, key);
      LastWriteAppend(SectionWrites(init), tail, key);
    }
  }

  /**
   * `area_info`, `facility_type` and `purpose_info` each hold the last section
   * header filed under them; a later header overwrites an earlier one.
   */
  lemma SectionEntries(doc: Document, key: string)
    requires !IsErrorPage(doc) && IsSectionKey(key)
    ensures Lookup(ParseResult(Markup(doc)), key)
      == if LastFiled(doc.sections, key).Some? then Some(JStr(LastFiled(doc.sections, key).value)) else None
  {
    BodyLastWrite(doc, key);
    SectionWritesLast(doc.sections, key);
    LookupPutAll(Envelope(doc), BodyWrites(doc), key);
    EnvelopeLookup(doc, key);
  }

  /** The envelope holds the content flag and the title, and nothing else. */
  lemma EnvelopeLookup(doc: Document, k: string)
    ensures Lookup(Envelope(doc), k)
      == if k == "html_content" then Some(JBool(true)) else if k == "title" then Some(JStr(TitleText(doc))) else None
  {
    var e := Envelope(doc);
    assert e[1..][1..] == [];
  }

  /** Every facility is the non-empty dictionary of a body row of one of the tables, and conversely. */
  lemma {:induction false} FacilitiesOrigin(tables: seq<Table>, f: Dict<Json>)
    ensures f in Facilities(tables) <==>
      f != [] && exists t, row :: t in tables && row in t.bodyRows && f == RowFacility(HeaderTexts(t), row)
  {
    if tables != [] {
      var init, last := tables[..|tables| - 1], tables[|tables| - 1];
      FacilitiesOrigin(init, f);
      RowFacilitiesOrigin(HeaderTexts(last), last.bodyRows, f);
      if exists t, row :: t in tables && row in t.bodyRows && f == RowFacility(HeaderTexts(t), row) {
        var t, row :| t in tables && row in t.bodyRows && f == RowFacility(HeaderTexts(t), row);
        if t != last {
          assert t in init;
        }
      }
      if exists t, row :: t in init && row in t.bodyRows && f == RowFacility(HeaderTexts(t), row) {
        var t, row :| t in init && row in t.bodyRows && f == RowFacility(HeaderTexts(t), row);
        assert t in tables;
      }
    }
  }

  lemma {:induction false} RowFacilitiesOrigin(headers: seq<string>, rows: seq<seq<Cell>>, f: Dict<Json>)
    ensures f in RowFacilities(headers, rows) <==> f != [] && exists row :: row in rows && f == RowFacility(headers, row)
  {
    if rows != [] {
      var init, last := rows[..|rows| - 1], rows[|rows| - 1];
      RowFacilitiesOrigin(headers, init, f);
      if exists row :: row in rows && f == RowFacility(headers, row) {
        var row :| row in rows && f == RowFacility(headers, row);
        if row != last {
          assert row in init;
        }
      }
      if exists row :: row in init && f == RowFacility(headers, row) {
        var row :| row in init && f == RowFacility(headers, row);
        assert row in rows;
      }
    }
  }

  /** Cells beyond the last header contribute nothing to a row's facility. */
  lemma {:induction false} RowWritesMappedOnly(headers: seq<string>, cells: seq<Cell>)
    requires |cells| > |headers|
    ensures RowWrites(headers, cells) == RowWrites(headers, cells[..|headers|])
  {
    var init := cells[..|cells| - 1];
    if |init| > |headers| {
      RowWritesMappedOnly(headers, init);
      assert init[..|headers|] == cells[..|headers|];
    } else {
      assert init == cells[..|headers|];
    }
  }

  /** The keys a mapped cell writes: its header key, a `_link` key and one key per `data-*` attribute. */
  lemma {:induction false} DataWritesKeys(key: string, attrs: seq<(string, string)>, k: string)
    ensures k in Keys(DataWrites(key, attrs)) <==> exists a :: a in attrs && DataKey(key, a, k)
  {
    if attrs != [] {
      var init, last := attrs[..|attrs| - 1], attrs[|attrs| - 1];
      DataWritesKeys(key, init, k);
      KeysAppend(DataWrites(key, init), AttrWrite(key, last));
      AttrWriteKeys(key, last, k);
      if exists a :: a in attrs && DataKey(key, a, k) {
        var a :| a in attrs && DataKey(key, a, k);
        InInitOrLast(attrs, a);
      }
      if exists a :: a in init && DataKey(key, a, k) {
        var a :| a in init && DataKey(key, a, k);
        InInitOrLast(attrs, a);
      }
    }
  }

  /** Attribute `a` of a cell under `key` is a `data-*` attribute filed as `k`. */
  predicate DataKey(key: string, a: (string, string), k: string) {
    StartsWith(a.0, "data-") && k == key + "_" + a.0
  }

  lemma AttrWriteKeys(key: string, a: (string, string), k: string)
    ensures k in Keys(AttrWrite(key, a)) <==> DataKey(key, a, k)
  {
  }

  predicate WrittenByCell(key: string, cell: Cell, k: string) {
    k == key || (cell.linkHrefs != [] && k == key + "_link")
    || exists a :: a in cell.attributes && DataKey(key, a, k)
  }

  lemma CellWritesKeys(key: string, cell: Cell, k: string)
    ensures k in Keys(CellWrites(key, cell)) <==> WrittenByCell(key, cell, k)
  {
    DataWritesKeys(key, cell.attributes, k);
    KeysAppend(CellHeadWrites(key, cell), DataWrites(key, cell.attributes));
    CellHeadKeys(key, cell, k);
  }

  lemma CellHeadKeys(key: string, cell: Cell, k: string)
    ensures k in Keys(CellHeadWrites(key, cell)) <==> k == key || (cell.linkHrefs != [] && k == key + "_link")
  {
  }

  /** Some cell with a header writes key `k`. */
  predicate MappedWriter(headers: seq<string>, cells: seq<Cell>, k: string) {
    exists i :: 0 <= i < |cells| && WriterAt(headers, cells, k, i)
  }

  /** The cell at `i` has a header and writes key `k`. */
  predicate WriterAt(headers: seq<string>, cells: seq<Cell>, k: string, i: int) {
    0 <= i < |cells| && i < |headers| && WrittenByCell(HeaderKey(headers[i]), cells[i], k)
  }

  lemma MappedWriterLast(headers: seq<string>, cells: seq<Cell>, k: string)
    requires cells != []
    ensures MappedWriter(headers, cells, k) <==>
      MappedWriter(headers, cells[..|cells| - 1], k) || WriterAt(headers, cells, k, |cells| - 1)
  {
    var n := |cells| - 1;
    var init := cells[..n];
    forall i | 0 <= i < n ensures WriterAt(headers, init, k, i) == WriterAt(headers, cells, k, i) {
      assert init[i] == cells[i];
    }
  }

  lemma {:induction false} RowWritesKeys(headers: seq<string>, cells: seq<Cell>, k: string)
    ensures k in Keys(RowWrites(headers, cells)) <==> MappedWriter(headers, cells, k)
  {
    if cells != [] {
      var n := |cells| - 1;
      var init := cells[..n];
      RowWritesKeys(headers, init, k);
      MappedWriterLast(headers, cells, k);
      var tail := if n < |headers| then CellWrites(HeaderKey(headers[n]), cells[n]) else [];
      KeysAppend(RowWrites(headers, init), tail);
      if n < |headers| {
        CellWritesKeys(HeaderKey(headers[n]), cells[n], k);
      }
    }
  }

  /**
   * A row's facility has exactly the keys its mapped cells (those with a header)
   * write, each holding the value of the last write to it; the row yields an empty
   * dictionary exactly when it has no cells or the table has no headers.
   */
  lemma RowFacilityContents(headers: seq<string>, cells: seq<Cell>, k: string)
    ensures k in Keys(RowFacility(headers, cells)) <==> MappedWriter(headers, cells, k)
    ensures Lookup(RowFacility(headers, cells), k) == LastWrite(RowWrites(headers, cells), k)
    ensures RowFacility(headers, cells) == [] <==> cells == [] || headers == []
  {
    KeysPutAll([], RowWrites(headers, cells), k);
    RowWritesKeys(headers, cells, k);
    LookupPutAll([], RowWrites(headers, cells), k);
    RowFacilityEmpty(headers, cells);
  }

  lemma RowFacilityEmpty(headers: seq<string>, cells: seq<Cell>)
    ensures RowFacility(headers, cells) == [] <==> cells == [] || headers == []
  {
    if cells != [] && headers != [] {
      var k0 := HeaderKey(headers[0]);
      assert WriterAt(headers, cells, k0, 0);
      KeysPutAll([], RowWrites(headers, cells), k0);
      RowWritesKeys(headers, cells, k0);
    } else if cells != [] {
      RowWritesMappedOnly(headers, cells);
      assert cells[..|headers|] == [];
    }
  }
}
