/** Document parsing (app/services/parser.py): turning the text a PDF or
    DOCX library extracts into pages, and choosing the parser by file
    extension. The libraries themselves, and the file system, are outside
    the model: what they return is passed in. */
module Parser {
  import opened Wrappers
  import opened Strings

  datatype ParsedPage = ParsedPage(text: string, pageNumber: Option<int>)

  datatype ParsedDocument = ParsedDocument(filename: string, pages: seq<ParsedPage>)

  datatype ParseError =
    | FileNotFound(path: string)
    | ParseFailed(message: string)
    | UnsupportedType(extension: string)

  const PageSeparator: string := "\n\n"

  /** The texts of the pages that are not blank, in page order. */
  function NonBlankTexts(pages: seq<ParsedPage>): seq<string> {
    if pages == [] then []
    else (if IsBlank(pages[0].text) then [] else [pages[0].text]) + NonBlankTexts(pages[1..])
  }

  lemma {:induction false} NonBlankTextsShape(pages: seq<ParsedPage>)
    ensures forall t :: t in NonBlankTexts(pages) ==> !IsBlank(t)
    ensures forall k :: 0 <= k < |pages| && !IsBlank(pages[k].text) ==> pages[k].text in NonBlankTexts(pages)
    ensures NonBlankTexts(pages) == [] <==> forall k :: 0 <= k < |pages| ==> IsBlank(pages[k].text)
  {
    if pages != [] {
      NonBlankTextsShape(pages[1..]);
      assert forall k :: 1 <= k < |pages| ==> pages[k] == pages[1..][k - 1];
    }
  }

  /** `ParsedDocument.full_text`: non-blank page texts joined by blank
      lines. Every non-blank page's text appears in it, and it is blank
      exactly when every page is. */
  function FullText(doc: ParsedDocument): (r: string)
    ensures forall k :: 0 <= k < |doc.pages| && !IsBlank(doc.pages[k].text) ==> Contains(r, doc.pages[k].text)
    ensures IsBlank(r) <==> forall k :: 0 <= k < |doc.pages| ==> IsBlank(doc.pages[k].text)
  {
    JoinedPagesKept(doc.pages);
    Join(NonBlankTexts(doc.pages), PageSeparator)
  }

  /** `ParsedDocument.page_count`. */
  function PageCount(doc: ParsedDocument): (n: nat)
    ensures n == |doc.pages|
  {
    |doc.pages|
  }

  /** A string holding a non-blank part is not blank. */
  lemma NonSpaceSurvives(s: string, sub: string)
    requires Contains(s, sub) && !IsBlank(sub)
    ensures !IsBlank(s)
  {
    var i: nat :| i <= |s| && OccursAt(s, sub, i);
    var k :| 0 <= k < |sub| && !IsSpace(sub[k]);
    assert s[i + k] == sub[k];
  }

  lemma {:induction false} JoinOfBlanksIsBlank(parts: seq<string>, sep: string)
    requires IsBlank(sep) && forall k :: 0 <= k < |parts| ==> IsBlank(parts[k])
    ensures IsBlank(Join(parts, sep))
  {
    if |parts| > 1 {
      JoinOfBlanksIsBlank(parts[1..], sep);
    }
  }

  /** Every non-blank page's text appears in the joined texts, and they
      are blank exactly when every page is. */
  lemma JoinedPagesKept(pages: seq<ParsedPage>)
    ensures forall k :: 0 <= k < |pages| && !IsBlank(pages[k].text) ==> Contains(Join(NonBlankTexts(pages), PageSeparator), pages[k].text)
    ensures IsBlank(Join(NonBlankTexts(pages), PageSeparator)) <==> forall k :: 0 <= k < |pages| ==> IsBlank(pages[k].text)
  {
    var texts := NonBlankTexts(pages);
    NonBlankTextsShape(pages);
    forall k | 0 <= k < |pages| && !IsBlank(pages[k].text)
      ensures Contains(Join(NonBlankTexts(pages), PageSeparator), pages[k].text)
    {
      var j :| 0 <= j < |texts| && texts[j] == pages[k].text;
      JoinContains(texts, PageSeparator, j);
    }
    if texts == [] {
      assert Join(NonBlankTexts(pages), PageSeparator) == "";
    } else {
      assert texts[0] in texts;
      JoinContains(texts, PageSeparator, 0);
      NonSpaceSurvives(Join(NonBlankTexts(pages), PageSeparator), texts[0]);
    }
  }

  // ---------------------------------------------------------------------
  // PDF
  // ---------------------------------------------------------------------

  /** The pages kept from the library's page texts `raw[i..]`: the stripped
      text of each non-blank page, numbered from 1 by its position in the file. */
  function PdfPages(raw: seq<string>, i: nat): seq<ParsedPage>
    requires i <= |raw|
    decreases |raw| - i
  {
    if i == |raw| then []
    else (if IsBlank(raw[i]) then [] else [ParsedPage(Strip(raw[i]), Some(i + 1))]) + PdfPages(raw, i + 1)
  }

  /** Every page kept from a PDF carries the stripped, non-empty text of
      the file's page its number names. */
  lemma {:induction false} PdfPagesFaithful(raw: seq<string>, i: nat)
    requires i <= |raw|
    ensures forall p :: p in PdfPages(raw, i) ==>
      p.pageNumber.Some? && i < p.pageNumber.value <= |raw|
      && p.text == Strip(raw[p.pageNumber.value - 1]) && p.text != []
    decreases |raw| - i
  {
    if i < |raw| {
      PdfPagesFaithful(raw, i + 1);
      var head: seq<ParsedPage> := if IsBlank(raw[i]) then [] else [ParsedPage(Strip(raw[i]), Some(i + 1))];
      assert PdfPages(raw, i) == head + PdfPages(raw, i + 1);
      forall p | p in PdfPages(raw, i)
        ensures p.pageNumber.Some? && i < p.pageNumber.value <= |raw|
                && p.text == Strip(raw[p.pageNumber.value - 1]) && p.text != []
      {
        if p !in head {
          assert p in PdfPages(raw, i + 1);
        }
      }
    }
  }

  /** Every page kept from `raw[i..]` is numbered after `i`. */
  lemma {:induction false} PdfPagesNumberedAfter(raw: seq<string>, i: nat)
    requires i <= |raw|
    ensures forall p :: p in PdfPages(raw, i) ==> p.pageNumber.Some? && i < p.pageNumber.value
    decreases |raw| - i
  {
    if i < |raw| {
      PdfPagesNumberedAfter(raw, i + 1);
    }
  }

  /** Page numbers are present and increase strictly along `ps`. */
  predicate NumbersIncrease(ps: seq<ParsedPage>)
  {
    forall j, k :: 0 <= j < k < |ps| ==>
      ps[j].pageNumber.Some? && ps[k].pageNumber.Some? && ps[j].pageNumber.value < ps[k].pageNumber.value
  }

  /** Page numbers increase strictly: pages keep the file's order. */
  lemma {:induction false} PdfPagesOrdered(raw: seq<string>, i: nat)
    requires i <= |raw|
    ensures NumbersIncrease(PdfPages(raw, i))
    decreases |raw| - i
  {
    if i < |raw| {
      PdfPagesOrdered(raw, i + 1);
      var rest := PdfPages(raw, i + 1);
      var r := PdfPages(raw, i);
      if IsBlank(raw[i]) {
        assert r == rest;
      } else {
        PdfPagesNumberedAfter(raw, i + 1);
        assert r == [r[0]] + rest && r[0].pageNumber == Some(i + 1);
        forall j, k | 0 <= j < k < |r|
          ensures r[j].pageNumber.Some? && r[k].pageNumber.Some? && r[j].pageNumber.value < r[k].pageNumber.value
        {
          assert r[k] == rest[k - 1];
          if j > 0 {
            assert r[j] == rest[j - 1];
          } else {
            assert rest[k - 1] in rest;
          }
        }
      }
    }
  }

  /** No page with text is lost. */
  lemma {:induction false} PdfPagesComplete(raw: seq<string>, i: nat)
    requires i <= |raw|
    ensures forall n :: i < n <= |raw| && !IsBlank(raw[n - 1]) ==>
      ParsedPage(Strip(raw[n - 1]), Some(n)) in PdfPages(raw, i)
    decreases |raw| - i
  {
    if i < |raw| {
      PdfPagesComplete(raw, i + 1);
    }
  }

  /** `parse_pdf`. `found` says whether the file is there; `extracted` is
      the text the PDF library returns for each page, or the error it raised. */
  method ParsePdf(path: string, found: bool, extracted: Result<seq<string>, string>)
    returns (r: Result<ParsedDocument, ParseError>)
    ensures !found ==> r == Err(FileNotFound(path))
    ensures found && extracted.Err? ==> r == Err(ParseFailed(extracted.error))
    ensures found && extracted.Ok? ==> r == Ok(ParsedDocument(PathName(path), PdfPages(extracted.value, 0)))
  {
    if !found {
      return Err(FileNotFound(path));
    }
    if extracted.Err? {
      return Err(ParseFailed(extracted.error));
    }
    var raw := extracted.value;
    var pages: seq<ParsedPage> := [];
    var pageNum := 0;
    while pageNum < |raw|
      invariant pageNum <= |raw|
      invariant pages + PdfPages(raw, pageNum) == PdfPages(raw, 0)
    {
      var text := Strip(raw[pageNum]);
      if text != [] {
        assert PdfPages(raw, pageNum) == [ParsedPage(text, Some(pageNum + 1))] + PdfPages(raw, pageNum + 1);
        pages := pages + [ParsedPage(text, Some(pageNum + 1))];
      } else {
        assert PdfPages(raw, pageNum) == PdfPages(raw, pageNum + 1);
      }
      pageNum := pageNum + 1;
    }
    assert pages == PdfPages(raw, 0);
    return Ok(ParsedDocument(PathName(path), pages));
  }

  // ---------------------------------------------------------------------
  // DOCX
  // ---------------------------------------------------------------------

  /** What the DOCX library reads: the paragraph texts, and the cell texts
      of every row of every table. */
  datatype DocxContent = DocxContent(paragraphs: seq<string>, tables: seq<seq<seq<string>>>)

  const CellSeparator: string := " | "

  /** The stripped non-blank strings of `xs`, in order. */
  function StrippedNonBlank(xs: seq<string>): seq<string> {
    if xs == [] then []
    else (if IsBlank(xs[0]) then [] else [Strip(xs[0])]) + StrippedNonBlank(xs[1..])
  }

  lemma {:induction false} StrippedNonBlankShape(xs: seq<string>)
    ensures forall t :: t in StrippedNonBlank(xs) ==> t != [] && IsStripped(t)
    ensures StrippedNonBlank(xs) == [] <==> forall k :: 0 <= k < |xs| ==> IsBlank(xs[k])
  {
    if xs != [] {
      StrippedNonBlankShape(xs[1..]);
      assert forall k :: 1 <= k < |xs| ==> xs[k] == xs[1..][k - 1];
    }
  }

  /** One line per table row that has a non-blank cell. */
  function RowLines(rows: seq<seq<string>>): seq<string> {
    if rows == [] then []
    else
      var cells := StrippedNonBlank(rows[0]);
      (if cells == [] then [] else [Join(cells, CellSeparator)]) + RowLines(rows[1..])
  }

  function TableLines(tables: seq<seq<seq<string>>>): seq<string> {
    if tables == [] then [] else RowLines(tables[0]) + TableLines(tables[1..])
  }

  /** The text of a DOCX file: kept paragraphs, then table rows, each
      separated by a blank line. */
  function DocxText(c: DocxContent): string {
    Join(StrippedNonBlank(c.paragraphs) + TableLines(c.tables), PageSeparator)
  }

  /** `parse_docx`. A DOCX file has no pages: its whole text is one page
      without a number, or there is no page when the text is blank. */
  method ParseDocx(path: string, found: bool, read: Result<DocxContent, string>)
    returns (r: Result<ParsedDocument, ParseError>)
    ensures !found ==> r == Err(FileNotFound(path))
    ensures found && read.Err? ==> r == Err(ParseFailed(read.error))
    ensures found && read.Ok? ==> r.Ok? && r.value.filename == PathName(path)
    ensures found && read.Ok? ==> (r.value.pages ==
      (if IsBlank(DocxText(read.value)) then [] else [ParsedPage(DocxText(read.value), None)]))
  {
    if !found {
      return Err(FileNotFound(path));
    }
    if read.Err? {
      return Err(ParseFailed(read.error));
    }
    var content := read.value;
    var paragraphs := KeepStripped(content.paragraphs);
    paragraphs := AppendTableLines(paragraphs, content.tables);
    var fullText := Join(paragraphs, PageSeparator);
    var pages: seq<ParsedPage> := [];
    if !IsBlank(fullText) {
      pages := [ParsedPage(fullText, None)];
    }
    return Ok(ParsedDocument(PathName(path), pages));
  }

  /** The loop over paragraphs, and over one row's cells: keep the stripped
      text of each non-blank entry. */
  method KeepStripped(xs: seq<string>) returns (kept: seq<string>)
    ensures kept == StrippedNonBlank(xs)
  {
    kept := [];
    var c := 0;
    while c < |xs|
      invariant c <= |xs|
      invariant kept + StrippedNonBlank(xs[c..]) == StrippedNonBlank(xs)
    {
      assert xs[c..][1..] == xs[c + 1..];
      var text := Strip(xs[c]);
      if text != [] {
        assert StrippedNonBlank(xs[c..]) == [text] + StrippedNonBlank(xs[c + 1..]);
        kept := kept + [text];
      } else {
        assert StrippedNonBlank(xs[c..]) == StrippedNonBlank(xs[c + 1..]);
      }
      c := c + 1;
    }
    assert xs[c..] == [];
  }

  /** The loop over the rows of one table. */
  method AppendRowLines(acc: seq<string>, rows: seq<seq<string>>) returns (out: seq<string>)
    ensures out == acc + RowLines(rows)
  {
    out := acc;
    var w := 0;
    while w < |rows|
      invariant w <= |rows|
      invariant out + RowLines(rows[w..]) == acc + RowLines(rows)
    {
      assert rows[w..][1..] == rows[w + 1..];
      var rowText := KeepStripped(rows[w]);
      if rowText != [] {
        assert RowLines(rows[w..]) == [Join(rowText, CellSeparator)] + RowLines(rows[w + 1..]);
        out := out + [Join(rowText, CellSeparator)];
      } else {
        assert RowLines(rows[w..]) == RowLines(rows[w + 1..]);
      }
      w := w + 1;
    }
    assert rows[w..] == [];
  }

  /** The loop over tables. */
  method AppendTableLines(acc: seq<string>, tables: seq<seq<seq<string>>>) returns (out: seq<string>)
    ensures out == acc + TableLines(tables)
  {
    out := acc;
    var t := 0;
    while t < |tables|
      invariant t <= |tables|
      invariant out + TableLines(tables[t..]) == acc + TableLines(tables)
    {
      assert tables[t..][1..] == tables[t + 1..];
      assert TableLines(tables[t..]) == RowLines(tables[t]) + TableLines(tables[t + 1..]);
      out := AppendRowLines(out, tables[t]);
      t := t + 1;
    }
    assert tables[t..] == [];
  }

  /** A DOCX file yields a page exactly when some paragraph or some cell
      holds non-whitespace text. */
  lemma DocxHasPageIff(c: DocxContent)
    ensures !IsBlank(DocxText(c)) <==>
      (exists k :: 0 <= k < |c.paragraphs| && !IsBlank(c.paragraphs[k]))
      || (exists t, w, k :: 0 <= t < |c.tables| && 0 <= w < |c.tables[t]| && 0 <= k < |c.tables[t][w]|
                            && !IsBlank(c.tables[t][w][k]))
  {
    var paras := StrippedNonBlank(c.paragraphs);
    var parts := paras + TableLines(c.tables);
    StrippedNonBlankShape(c.paragraphs);
    TableLinesEmpty(c.tables);
    if parts == [] {
      JoinOfBlanksIsBlank(parts, PageSeparator);
    } else {
      assert !IsBlank(parts[0]) by {
        if paras != [] {
          assert parts[0] == paras[0] && paras[0] in paras;
        } else {
          TableLinesNonBlank(c.tables);
          assert parts[0] in TableLines(c.tables);
        }
      }
      JoinContains(parts, PageSeparator, 0);
      NonSpaceSurvives(DocxText(c), parts[0]);
    }
  }

  lemma {:induction false} RowLinesShape(rows: seq<seq<string>>)
    ensures forall t :: t in RowLines(rows) ==> !IsBlank(t)
    ensures RowLines(rows) == [] <==>
      forall w, k :: 0 <= w < |rows| && 0 <= k < |rows[w]| ==> IsBlank(rows[w][k])
  {
    if rows != [] {
      RowLinesShape(rows[1..]);
      assert forall w :: 1 <= w < |rows| ==> rows[w] == rows[1..][w - 1];
      var cells := StrippedNonBlank(rows[0]);
      StrippedNonBlankShape(rows[0]);
      if cells != [] {
        assert cells[0] in cells;
        JoinContains(cells, CellSeparator, 0);
        NonSpaceSurvives(Join(cells, CellSeparator), cells[0]);
      }
    }
  }

  lemma {:induction false} TableLinesNonBlank(tables: seq<seq<seq<string>>>)
    ensures forall t :: t in TableLines(tables) ==> !IsBlank(t)
  {
    if tables != [] {
      RowLinesShape(tables[0]);
      TableLinesNonBlank(tables[1..]);
    }
  }

  lemma {:induction false} TableLinesEmpty(tables: seq<seq<seq<string>>>)
    ensures TableLines(tables) == [] <==>
      forall t, w, k :: 0 <= t < |tables| && 0 <= w < |tables[t]| && 0 <= k < |tables[t][w]| ==> IsBlank(tables[t][w][k])
  {
    if tables != [] {
      TableLinesEmpty(tables[1..]);
      RowLinesShape(tables[0]);
      assert forall t :: 1 <= t < |tables| ==> tables[t] == tables[1..][t - 1];
    }
  }

  // ---------------------------------------------------------------------
  // Paths and dispatch
  // ---------------------------------------------------------------------

  /** The path without the '/' characters it ends with. */
  function TrimTrailingSlashes(path: string): (r: string)
    ensures |r| <= |path| && r == path[..|r|]
    ensures r == [] || r[|r| - 1] != '/'
    ensures forall j :: |r| <= j < |path| ==> path[j] == '/'
    decreases |path|
  {
    if path != [] && path[|path| - 1] == '/' then TrimTrailingSlashes(path[..|path| - 1]) else path
  }

  /** What follows the last '/' of a path (all of it when it has none). */
  function LastComponent(path: string): (r: string)
    ensures |r| <= |path| && '/' !in r
    ensures r == path[|path| - |r|..]
    ensures |r| < |path| ==> path[|path| - |r| - 1] == '/'
  {
    path[RFindChar(path, '/') + 1..]
  }

  /** `Path.name` of a '/'-separated path: its last component once the
      separators it ends with are dropped, as pathlib drops them. */
  function PathName(path: string): (r: string)
    ensures |r| <= |path|
    ensures '/' !in r
    ensures (path == [] || path[|path| - 1] != '/') ==> r == path[|path| - |r|..]
    ensures (path == [] || path[|path| - 1] != '/') && |r| < |path| ==> path[|path| - |r| - 1] == '/'
  {
    var t := TrimTrailingSlashes(path);
    assert (path == [] || path[|path| - 1] != '/') ==> t == path;
    LastComponent(t)
  }

  /** A separator at the end of a path does not change its name. */
  lemma PathNameTrailingSlash(path: string)
    ensures PathName(path + "/") == PathName(path)
  {
    assert (path + "/")[..|path + "/"| - 1] == path;
  }

  /** The suffix of a file name: from its last '.', provided that dot is
      neither the name's first nor its last character. */
  function NameSuffix(name: string): (r: string)
    ensures r == [] || (|r| >= 2 && r[0] == '.' && '.' !in r[1..])
    ensures r != [] ==> |r| < |name| && r == name[|name| - |r|..]
  {
    var i := RFind(name, ".", 0, |name|);
    if 0 < i < |name| - 1 then
      RFindSpec(name, ".", 0, |name|);
      assert forall j :: i < j < |name| ==> name[j] != '.' by {
        forall j | i < j < |name| ensures name[j] != '.' {
          assert !OccursAt(name, ".", j);
          assert name[j..j + 1] == [name[j]];
        }
      }
      name[i..]
    else []
  }

  /** `Path.suffix`: the suffix of the path's name. */
  function PathSuffix(path: string): (r: string)
    ensures r == [] || (|r| >= 2 && r[0] == '.' && '.' !in r[1..])
    ensures r != [] ==> |r| < |PathName(path)| && r == PathName(path)[|PathName(path)| - |r|..]
  {
    NameSuffix(PathName(path))
  }

  /** The parser `parse_document` picks for a path, by lower-cased suffix. */
  datatype Format = Pdf | Docx

  function FormatFor(path: string): (r: Result<Format, ParseError>)
    ensures r == Ok(Pdf) <==> Lower(PathSuffix(path)) == ".pdf"
    ensures r == Ok(Docx) <==> Lower(PathSuffix(path)) in {".docx", ".doc"}
    ensures r.Err? ==> r.error == UnsupportedType(Lower(PathSuffix(path)))
  {
    var extension := Lower(PathSuffix(path));
    if extension == ".pdf" then Ok(Pdf)
    else if extension == ".docx" || extension == ".doc" then Ok(Docx)
    else Err(UnsupportedType(extension))
  }

  /** `parse_document`: what the file holds is given for both formats; only
      the one the suffix selects is read. */
  method ParseDocument(path: string, found: bool, pdf: Result<seq<string>, string>,
                       docx: Result<DocxContent, string>)
    returns (r: Result<ParsedDocument, ParseError>)
    ensures FormatFor(path).Err? ==> r == Err(FormatFor(path).error)
    ensures FormatFor(path) == Ok(Pdf) && found && pdf.Ok? ==>
      r == Ok(ParsedDocument(PathName(path), PdfPages(pdf.value, 0)))
    ensures FormatFor(path).Ok? && !found ==> r == Err(FileNotFound(path))
    ensures FormatFor(path) == Ok(Pdf) && found && pdf.Err? ==> r == Err(ParseFailed(pdf.error))
    ensures FormatFor(path) == Ok(Docx) && found && docx.Ok? ==>
      r == Ok(ParsedDocument(PathName(path), if IsBlank(DocxText(docx.value)) then []
                                             else [ParsedPage(DocxText(docx.value), None)]))
    ensures FormatFor(path) == Ok(Docx) && found && docx.Err? ==> r == Err(ParseFailed(docx.error))
  {
    match FormatFor(path)
    case Err(e) => r := Err(e);
    case Ok(Pdf) => r := ParsePdf(path, found, pdf);
    case Ok(Docx) => r := ParseDocx(path, found, docx);
  }
}
