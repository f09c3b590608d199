/** Overlapping text chunking (backend/app/services/chunker.py).

    `ChunkText` walks a window of at most `chunkSize` characters along the
    stripped text. Where the text goes on past the window it moves the cut
    back to a natural boundary: a paragraph break in the second half of the
    window, else the first sentence separator (in a fixed order) found in
    the second half, else a space there, else it cuts raw. Each window is
    stripped and kept when non-empty; the next window starts `chunkOverlap`
    characters before the cut, unless that would not move forward. */
module Chunker {
  import opened Wrappers
  import opened Strings
  import opened Models
  import opened Parser
  import opened MetadataExtractor

  const ParagraphBreak: string := "\n\n"

  /** The sentence separators, in the order they are tried. */
  const Separators: seq<string> := [". ", ".\n", "! ", "!\n", "? ", "?\n"]

  // ---------------------------------------------------------------------
  // Choosing where a chunk ends
  // ---------------------------------------------------------------------

  /** The first separator, from `Separators[k..]`, whose last occurrence in
      `t[lo..hi]` lies after `start`; the cut then falls just after it. */
  function SentenceBreak(t: string, start: nat, lo: nat, hi: nat, k: nat): Option<nat>
    requires hi <= |t| && k <= |Separators|
    decreases |Separators| - k
  {
    if k == |Separators| then None
    else
      var b := RFind(t, Separators[k], lo, hi);
      if b > start then Some(b + |Separators[k]|)
      else SentenceBreak(t, start, lo, hi, k + 1)
  }

  /** Where the chunk starting at `start` ends (exclusive). */
  function BreakEnd(t: string, start: nat, size: nat): (r: nat)
    requires start < |t| && size >= 1
    ensures start < r <= start + size
  {
    var end := start + size;
    if end >= |t| then end
    else
      var half := start + size / 2;
      var para := RFind(t, ParagraphBreak, start, end);
      if para > half then RFindSpec(t, ParagraphBreak, start, end); para + 2
      else
        var sentence := SentenceBreak(t, start, half, end, 0);
        if sentence.Some? then SentenceBreakBounds(t, start, half, end, 0); sentence.value
        else
          var space := RFind(t, " ", half, end);
          if space > start then RFindSpec(t, " ", half, end); space + 1 else end
  }

  lemma {:induction false} SentenceBreakBounds(t: string, start: nat, lo: nat, hi: nat, k: nat)
    requires hi <= |t| && k <= |Separators|
    ensures SentenceBreak(t, start, lo, hi, k).Some? ==>
      start < SentenceBreak(t, start, lo, hi, k).value <= hi
    decreases |Separators| - k
  {
    if k < |Separators| {
      RFindSpec(t, Separators[k], lo, hi);
      SentenceBreakBounds(t, start, lo, hi, k + 1);
    }
  }

  /** `BreakEnd` for a window that stops short of the end of the text, with
      the searches named. */
  lemma BreakEndCut(t: string, start: nat, size: nat)
    requires start < |t| && size >= 1 && start + size < |t|
    ensures var half := start + size / 2;
      var para := RFind(t, ParagraphBreak, start, start + size);
      var sentence := SentenceBreak(t, start, half, start + size, 0);
      var space := RFind(t, " ", half, start + size);
      BreakEnd(t, start, size) ==
        if para > half then para + 2
        else if sentence.Some? then sentence.value
        else if space > start then space + 1
        else start + size
  {
    var half := start + size / 2;
    var para := RFind(t, ParagraphBreak, start, start + size);
    if para <= half {
      var sentence := SentenceBreak(t, start, half, start + size, 0);
      if sentence.None? {
        var space := RFind(t, " ", half, start + size);
      }
    }
  }

  /** The sentence break is that of the first separator occurring in range. */
  lemma FirstSeparatorChosen(t: string, start: nat, size: nat, k: nat, i: nat)
    requires start + size <= |t| && size >= 1
    requires k < |Separators| && SeparatorIn(t, start, size, Separators[k], i)
    requires forall m: nat, j: nat :: m < k ==> !SeparatorIn(t, start, size, Separators[m], j)
    ensures SentenceBreak(t, start, start + size / 2, start + size, 0)
         == Some(RFind(t, Separators[k], start + size / 2, start + size) + |Separators[k]|)
  {
    SentenceBreakSkips(t, start, size, 0, k);
    LastSeparator(t, start, size, Separators[k], i);
  }

  /** No sentence break is chosen when no separator occurs in range. */
  lemma NoSentenceBreak(t: string, start: nat, size: nat)
    requires start + size <= |t| && size >= 1
    requires forall m: nat, j: nat :: m < |Separators| ==> !SeparatorIn(t, start, size, Separators[m], j)
    ensures SentenceBreak(t, start, start + size / 2, start + size, 0) == None
  {
    SentenceBreakSkips(t, start, size, 0, |Separators|);
  }

  /** A paragraph break at `i` that lies in the second half of the window. */
  predicate ParagraphIn(t: string, start: nat, size: nat, i: nat) {
    OccursAt(t, ParagraphBreak, i) && start + size / 2 < i && i + 2 <= start + size
  }

  /** `sep` at `i`, after `start`, in the second half of the window. */
  predicate SeparatorIn(t: string, start: nat, size: nat, sep: string, i: nat) {
    OccursAt(t, sep, i) && start < i && start + size / 2 <= i && i + |sep| <= start + size
  }

  /** When the window reaches the end of the text there is no search: the
      chunk is the rest of the text. */
  lemma BreakAtEnd(t: string, start: nat, size: nat)
    requires start < |t| && size >= 1 && start + size >= |t|
    ensures BreakEnd(t, start, size) == start + size
  {
  }

  /** The last paragraph break of the window, when one lies in its second half. */
  lemma LastParagraph(t: string, start: nat, size: nat, i: nat)
    requires start + size <= |t| && size >= 1
    requires ParagraphIn(t, start, size, i)
    ensures RFind(t, ParagraphBreak, start, start + size) > start + size / 2
    ensures ParagraphIn(t, start, size, RFind(t, ParagraphBreak, start, start + size))
    ensures forall j: nat :: ParagraphIn(t, start, size, j) ==> j <= RFind(t, ParagraphBreak, start, start + size)
  {
    RFindSpec(t, ParagraphBreak, start, start + size);
  }

  /** The last occurrence of `sep` in the second half of the window, when
      one lies after `start`. */
  lemma LastSeparator(t: string, start: nat, size: nat, sep: string, i: nat)
    requires start + size <= |t| && size >= 1
    requires SeparatorIn(t, start, size, sep, i)
    ensures RFind(t, sep, start + size / 2, start + size) > start
    ensures SeparatorIn(t, start, size, sep, RFind(t, sep, start + size / 2, start + size))
    ensures forall j: nat :: SeparatorIn(t, start, size, sep, j) ==> j <= RFind(t, sep, start + size / 2, start + size)
  {
    RFindSpec(t, sep, start + size / 2, start + size);
  }

  /** A paragraph break in the second half of the window wins: the cut
      falls after the last one. */
  lemma BreakAtParagraph(t: string, start: nat, size: nat, i: nat)
    requires start < |t| && size >= 1 && start + size < |t|
    requires ParagraphIn(t, start, size, i)
    ensures BreakEnd(t, start, size) >= 2
    ensures ParagraphIn(t, start, size, BreakEnd(t, start, size) - 2)
    ensures forall j: nat :: ParagraphIn(t, start, size, j) ==> j <= BreakEnd(t, start, size) - 2
  {
    LastParagraph(t, start, size, i);
    BreakEndCut(t, start, size);
  }

  /** Otherwise the first separator, in list order, that occurs after
      `start` in the second half of the window wins: the cut falls after
      its last occurrence. */
  lemma BreakAtSentence(t: string, start: nat, size: nat, k: nat, i: nat)
    requires start < |t| && size >= 1 && start + size < |t|
    requires forall j: nat :: !ParagraphIn(t, start, size, j)
    requires k < |Separators| && SeparatorIn(t, start, size, Separators[k], i)
    requires forall m: nat, j: nat :: m < k ==> !SeparatorIn(t, start, size, Separators[m], j)
    ensures BreakEnd(t, start, size) >= |Separators[k]|
    ensures SeparatorIn(t, start, size, Separators[k], BreakEnd(t, start, size) - |Separators[k]|)
    ensures forall j: nat :: SeparatorIn(t, start, size, Separators[k], j) ==>
      j <= BreakEnd(t, start, size) - |Separators[k]|
  {
    NoParagraphBreak(t, start, size);
    FirstSeparatorChosen(t, start, size, k, i);
    LastSeparator(t, start, size, Separators[k], i);
    BreakEndCut(t, start, size);
  }

  /** Otherwise the last space after `start` in the second half wins. */
  lemma BreakAtSpace(t: string, start: nat, size: nat, i: nat)
    requires start < |t| && size >= 1 && start + size < |t|
    requires forall j: nat :: !ParagraphIn(t, start, size, j)
    requires forall m: nat, j: nat :: m < |Separators| ==> !SeparatorIn(t, start, size, Separators[m], j)
    requires SeparatorIn(t, start, size, " ", i)
    ensures BreakEnd(t, start, size) >= 1
    ensures SeparatorIn(t, start, size, " ", BreakEnd(t, start, size) - 1)
    ensures forall j: nat :: SeparatorIn(t, start, size, " ", j) ==> j <= BreakEnd(t, start, size) - 1
  {
    NoParagraphBreak(t, start, size);
    NoSentenceBreak(t, start, size);
    LastSeparator(t, start, size, " ", i);
    BreakEndCut(t, start, size);
  }

  /** With no boundary at all, the window is cut at full size. */
  lemma BreakRaw(t: string, start: nat, size: nat)
    requires start < |t| && size >= 1 && start + size < |t|
    requires forall j: nat :: !ParagraphIn(t, start, size, j)
    requires forall m: nat, j: nat :: m < |Separators| ==> !SeparatorIn(t, start, size, Separators[m], j)
    requires forall j: nat :: !SeparatorIn(t, start, size, " ", j)
    ensures BreakEnd(t, start, size) == start + size
  {
    NoParagraphBreak(t, start, size);
    NoSentenceBreak(t, start, size);
    var space := RFind(t, " ", start + size / 2, start + size);
    RFindSpec(t, " ", start + size / 2, start + size);
    var at: nat := if space > start then space else 0;
    assert space > start ==> SeparatorIn(t, start, size, " ", at);
    BreakEndCut(t, start, size);
  }

  lemma NoParagraphBreak(t: string, start: nat, size: nat)
    requires start + size <= |t| && size >= 1
    requires forall j: nat :: !ParagraphIn(t, start, size, j)
    ensures RFind(t, ParagraphBreak, start, start + size) <= start + size / 2
  {
    var para := RFind(t, ParagraphBreak, start, start + size);
    RFindSpec(t, ParagraphBreak, start, start + size);
    var at: nat := if para > start + size / 2 then para else 0;
    assert para > start + size / 2 ==> ParagraphIn(t, start, size, at);
  }

  /** Separators that never occur in range are passed over. */
  lemma {:induction false} SentenceBreakSkips(t: string, start: nat, size: nat, k: nat, m: nat)
    requires start + size <= |t| && size >= 1 && k <= m <= |Separators|
    requires forall n: nat, j: nat :: k <= n < m ==> !SeparatorIn(t, start, size, Separators[n], j)
    ensures SentenceBreak(t, start, start + size / 2, start + size, k)
         == SentenceBreak(t, start, start + size / 2, start + size, m)
    decreases m - k
  {
    if k < m {
      var b := RFind(t, Separators[k], start + size / 2, start + size);
      RFindSpec(t, Separators[k], start + size / 2, start + size);
      var sep := Separators[k];
      var at: nat := if b > start then b else 0;
      assert b > start ==> SeparatorIn(t, start, size, sep, at);
      SentenceBreakSkips(t, start, size, k + 1, m);
    }
  }

  /** The separator loop and the boundary search of one iteration of
      `chunk_text`'s main loop. */
  method BreakPoint(t: string, start: nat, size: nat) returns (end: nat)
    requires start < |t| && size >= 1
    ensures end == BreakEnd(t, start, size)
  {
    end := start + size;
    if end >= |t| {
      BreakAtEnd(t, start, size);
    } else {
      BreakEndCut(t, start, size);
      var half := start + size / 2;
      var paraBreak := RFind(t, ParagraphBreak, start, end);
      if paraBreak > half {
        end := paraBreak + 2;
      } else {
        var sentence := FirstSentenceBreak(t, start, half, end);
        if sentence.Some? {
          end := sentence.value;
        } else {
          var space := RFind(t, " ", half, end);
          if space > start {
            end := space + 1;
          }
        }
      }
    }
  }

  /** The `for ... else` loop over the separators. */
  method FirstSentenceBreak(t: string, start: nat, lo: nat, hi: nat) returns (r: Option<nat>)
    requires hi <= |t|
    ensures r == SentenceBreak(t, start, lo, hi, 0)
  {
    var k := 0;
    while k < |Separators|
      invariant k <= |Separators|
      invariant SentenceBreak(t, start, lo, hi, 0) == SentenceBreak(t, start, lo, hi, k)
    {
      var sentBreak := RFind(t, Separators[k], lo, hi);
      if sentBreak > start {
        return Some(sentBreak + |Separators[k]|);
      }
      k := k + 1;
    }
    return None;
  }

  // ---------------------------------------------------------------------
  // The chunks of a text
  // ---------------------------------------------------------------------

  /** Where the next window starts: `overlap` before the cut, unless that is
      not past the current start. */
  function NextStart(start: nat, end: nat, overlap: int): (r: nat)
    requires start < end
    ensures start < r
    ensures r == end || r == end - overlap
  {
    if end - overlap <= start then end else end - overlap
  }

  /** The text of the window `t[start..end]`, clipped to the text, stripped. */
  function Window(t: string, start: nat, end: nat): string
    requires start < |t| && start < end
  {
    Strip(t[start..if end <= |t| then end else |t|])
  }

  /** The chunks of the stripped text `t` from offset `start` on. */
  function ChunksFrom(t: string, start: nat, size: nat, overlap: int): seq<string>
    requires size >= 1
    decreases |t| - start
  {
    if start >= |t| then []
    else
      var end := BreakEnd(t, start, size);
      var chunk := Window(t, start, end);
      (if chunk == [] then [] else [chunk]) + ChunksFrom(t, NextStart(start, end, overlap), size, overlap)
  }

  lemma ChunksFromStep(t: string, start: nat, size: nat, overlap: int, chunks: seq<string>, whole: seq<string>)
    requires size >= 1 && start < |t|
    requires chunks + ChunksFrom(t, start, size, overlap) == whole
    ensures var w := Window(t, start, BreakEnd(t, start, size));
      (chunks + if w == [] then [] else [w]) + ChunksFrom(t, NextStart(start, BreakEnd(t, start, size), overlap), size, overlap) == whole
  {
    var end := BreakEnd(t, start, size);
    var w := Window(t, start, end);
    var piece: seq<string> := if w == [] then [] else [w];
    var rest := ChunksFrom(t, NextStart(start, end, overlap), size, overlap);
    assert ChunksFrom(t, start, size, overlap) == piece + rest;
    Regroup(chunks, piece, rest, chunks + piece, whole);
  }

  /** What `chunk_text` returns. */
  function ChunkTextSpec(text: string, size: nat, overlap: int): seq<string>
    requires size >= 1
  {
    if IsBlank(text) then []
    else
      var t := Strip(text);
      if |t| <= size then [t] else ChunksFrom(t, 0, size, overlap)
  }

  /** `chunk_text`. A chunk size below 1 makes the source loop forever
      (size 0) or slice with negative indices, so it is excluded. */
  method ChunkText(text: string, chunkSize: nat, chunkOverlap: int) returns (chunks: seq<string>)
    requires chunkSize >= 1
    ensures chunks == ChunkTextSpec(text, chunkSize, chunkOverlap)
  {
    if IsBlank(text) {
      return [];
    }
    var t := Strip(text);
    if |t| <= chunkSize {
      return [t];
    }
    chunks := [];
    var start: nat := 0;
    ghost var whole := ChunksFrom(t, 0, chunkSize, chunkOverlap);
    while start < |t|
      invariant chunks + ChunksFrom(t, start, chunkSize, chunkOverlap) == whole
      decreases |t| - start
    {
      var end := BreakPoint(t, start, chunkSize);
      var chunk := Strip(t[start..if end <= |t| then end else |t|]);
      ChunksFromStep(t, start, chunkSize, chunkOverlap, chunks, whole);
      assert chunk == Window(t, start, end);
      ghost var next := NextStart(start, end, chunkOverlap);
      ghost var before := chunks;
      if chunk != [] {
        chunks := chunks + [chunk];
      }
      var newStart := end - chunkOverlap;
      if newStart <= start {
        start := end;
      } else {
        start := newStart;
      }
      assert start == next;
      assert chunks == before + if chunk == [] then [] else [chunk];
    }
  }

  /** Empty or whitespace-only text gives no chunks; text that fits in one
      chunk gives exactly its stripped self. */
  lemma ChunkTextShortCases(text: string, size: nat, overlap: int)
    requires size >= 1
    ensures IsBlank(text) ==> ChunkTextSpec(text, size, overlap) == []
    ensures !IsBlank(text) && |Strip(text)| <= size ==> ChunkTextSpec(text, size, overlap) == [Strip(text)]
  {
  }

  /** What every chunk is: non-empty, stripped, a piece of `t` and no
      longer than the chunk size. */
  predicate GoodChunk(t: string, size: nat, c: string) {
    c != [] && IsStripped(c) && Contains(t, c) && |c| <= size
  }

  lemma SliceOfSlice(t: string, lo: nat, hi: nat, i: nat, j: nat)
    requires lo <= hi <= |t| && i <= j <= hi - lo
    ensures t[lo..hi][i..j] == t[lo + i..lo + j]
  {
    forall k | 0 <= k < j - i
      ensures t[lo..hi][i..j][k] == t[lo + i..lo + j][k]
    {
      assert t[lo..hi][i..j][k] == t[lo..hi][i + k] == t[lo + i + k];
    }
  }

  lemma WindowIsGood(t: string, start: nat, size: nat, end: nat)
    requires start < |t| && start < end <= start + size
    requires Window(t, start, end) != []
    ensures GoodChunk(t, size, Window(t, start, end))
  {
    var e := if end <= |t| then end else |t|;
    var w := t[start..e];
    var a := StripStart(w);
    var c := Strip(w);
    assert Window(t, start, end) == c;
    SliceOfSlice(t, start, e, a, a + |c|);
    ContainsAt(t, c, start + a);
  }

  lemma {:induction false} ChunksFromGood(t: string, start: nat, size: nat, overlap: int)
    requires size >= 1
    ensures forall c :: c in ChunksFrom(t, start, size, overlap) ==> GoodChunk(t, size, c)
    decreases |t| - start
  {
    if start < |t| {
      var end := BreakEnd(t, start, size);
      ChunksFromGood(t, NextStart(start, end, overlap), size, overlap);
      if Window(t, start, end) != [] {
        WindowIsGood(t, start, size, end);
      }
    }
  }

  /** Every chunk `chunk_text` emits is non-empty, stripped, a substring of
      the stripped text and at most `size` characters long. */
  lemma ChunkTextGood(text: string, size: nat, overlap: int)
    requires size >= 1
    ensures forall c :: c in ChunkTextSpec(text, size, overlap) ==> GoodChunk(Strip(text), size, c)
  {
    var t := Strip(text);
    if !IsBlank(text) {
      if |t| <= size {
        assert t[0..|t|] == t;
        ContainsAt(t, t, 0);
        StripStripped(t);
      } else {
        ChunksFromGood(t, 0, size, overlap);
      }
    }
  }

  // ---------------------------------------------------------------------
  // Chunking a parsed document
  // ---------------------------------------------------------------------

  /** The chunk id of the `i`-th chunk of a document. */
  function ChunkId(docId: string, i: nat): string {
    docId + "_chunk_" + NatToString(i)
  }

  /** One chunk's text together with the number of the page it came from. */
  datatype Piece = Piece(text: string, pageNumber: Option<int>)

  /** The pieces of one page, in order. */
  function PagePieces(page: ParsedPage, size: nat, overlap: int): seq<Piece>
    requires size >= 1
  {
    Tagged(ChunkTextSpec(page.text, size, overlap), page.pageNumber)
  }

  /** The texts of one page, tagged with its number. */
  function Tagged(texts: seq<string>, pageNumber: Option<int>): seq<Piece> {
    seq(|texts|, k requires 0 <= k < |texts| => Piece(texts[k], pageNumber))
  }

  /** The pieces of `pages`, page after page; blank pages are skipped. */
  function Pieces(pages: seq<ParsedPage>, size: nat, overlap: int): seq<Piece>
    requires size >= 1
  {
    if pages == [] then []
    else (if IsBlank(pages[0].text) then [] else PagePieces(pages[0], size, overlap)) + Pieces(pages[1..], size, overlap)
  }

  /** The chunk built for `piece` as the `index`-th chunk of the document;
      `extract` is the metadata extractor run on the piece's text. */
  function MakeChunk(piece: Piece, extract: string -> Extracted, doc: ParsedDocument, docId: string,
                     deviceName: Option<string>, docType: DocType, index: nat): Chunk
  {
    var e := extract(piece.text);
    Chunk(piece.text, ChunkMetadata(docId, doc.filename, ChunkId(docId, index), piece.pageNumber, index,
                                    deviceName, docType, e.standardsReferenced, e.sectionHeading,
                                    e.requirementIds, e.testCaseIds, e.riskIds))
  }

  /** The chunks of `pieces`, numbered from `first`. */
  function ChunksOf(pieces: seq<Piece>, extract: string -> Extracted, doc: ParsedDocument, docId: string,
                    deviceName: Option<string>, docType: DocType, first: nat): seq<Chunk>
    decreases |pieces|
  {
    if pieces == [] then []
    else [MakeChunk(pieces[0], extract, doc, docId, deviceName, docType, first)]
         + ChunksOf(pieces[1..], extract, doc, docId, deviceName, docType, first + 1)
  }

  /** What `chunk_document` returns. */
  function DocumentChunks(doc: ParsedDocument, docId: string, deviceName: Option<string>, docType: DocType,
                          size: nat, overlap: int): seq<Chunk>
    requires size >= 1
  {
    ChunksOf(Pieces(doc.pages, size, overlap), ExtractAllMetadata, doc, docId, deviceName, docType, 0)
  }

  lemma {:induction false} ChunksOfAppend(xs: seq<Piece>, ys: seq<Piece>, extract: string -> Extracted,
                                          doc: ParsedDocument, docId: string,
                                          deviceName: Option<string>, docType: DocType, first: nat)
    ensures ChunksOf(xs + ys, extract, doc, docId, deviceName, docType, first)
         == ChunksOf(xs, extract, doc, docId, deviceName, docType, first)
            + ChunksOf(ys, extract, doc, docId, deviceName, docType, first + |xs|)
    decreases |xs|
  {
    if xs != [] {
      ChunksOfAppend(xs[1..], ys, extract, doc, docId, deviceName, docType, first + 1);
      ChunksOfAppendCons(xs, ys, extract, doc, docId, deviceName, docType, first);
    } else {
      assert xs + ys == ys;
    }
  }

  /** The inductive step of `ChunksOfAppend`. */
  lemma ChunksOfAppendCons(xs: seq<Piece>, ys: seq<Piece>, extract: string -> Extracted,
                           doc: ParsedDocument, docId: string,
                           deviceName: Option<string>, docType: DocType, first: nat)
    requires xs != []
    requires ChunksOf(xs[1..] + ys, extract, doc, docId, deviceName, docType, first + 1)
          == ChunksOf(xs[1..], extract, doc, docId, deviceName, docType, first + 1)
             + ChunksOf(ys, extract, doc, docId, deviceName, docType, first + |xs|)
    ensures ChunksOf(xs + ys, extract, doc, docId, deviceName, docType, first)
         == ChunksOf(xs, extract, doc, docId, deviceName, docType, first)
            + ChunksOf(ys, extract, doc, docId, deviceName, docType, first + |xs|)
  {
    var zs := xs + ys;
    assert zs[0] == xs[0] && zs[1..] == xs[1..] + ys;
    var head := [MakeChunk(xs[0], extract, doc, docId, deviceName, docType, first)];
    var a := ChunksOf(xs[1..], extract, doc, docId, deviceName, docType, first + 1);
    var b := ChunksOf(ys, extract, doc, docId, deviceName, docType, first + |xs|);
    assert ChunksOf(zs, extract, doc, docId, deviceName, docType, first) == head + (a + b);
    Regroup(head, a, b, head + a, head + (a + b));
  }

  /** The invariant of the inner loop of `chunk_document`: after `j` texts
      of the page, `out` followed by the chunks of the remaining texts is
      everything the page contributes after `acc`. */
  ghost predicate PageLoop(acc: seq<Chunk>, out: seq<Chunk>, texts: seq<string>, pageNumber: Option<int>,
                           extract: string -> Extracted, doc: ParsedDocument, docId: string,
                           deviceName: Option<string>, docType: DocType, j: nat)
  {
    j <= |texts| && |out| == |acc| + j
    && out + ChunksOf(Tagged(texts, pageNumber)[j..], extract, doc, docId, deviceName, docType, |acc| + j)
       == acc + ChunksOf(Tagged(texts, pageNumber), extract, doc, docId, deviceName, docType, |acc|)
  }

  /** One step of the inner loop of `chunk_document`. */
  lemma PageLoopStep(acc: seq<Chunk>, out: seq<Chunk>, texts: seq<string>, pageNumber: Option<int>,
                     extract: string -> Extracted, doc: ParsedDocument, docId: string,
                     deviceName: Option<string>, docType: DocType, j: nat)
    requires PageLoop(acc, out, texts, pageNumber, extract, doc, docId, deviceName, docType, j) && j < |texts|
    ensures PageLoop(acc, out + [MakeChunk(Piece(texts[j], pageNumber), extract, doc, docId, deviceName, docType, |acc| + j)],
                     texts, pageNumber, extract, doc, docId, deviceName, docType, j + 1)
  {
    var pieces := Tagged(texts, pageNumber);
    assert pieces[j] == Piece(texts[j], pageNumber);
    assert pieces[j..][1..] == pieces[j + 1..];
    var whole := acc + ChunksOf(pieces, extract, doc, docId, deviceName, docType, |acc|);
    var head := [MakeChunk(pieces[j], extract, doc, docId, deviceName, docType, |acc| + j)];
    var rest := ChunksOf(pieces[j + 1..], extract, doc, docId, deviceName, docType, |acc| + j + 1);
    assert ChunksOf(pieces[j..], extract, doc, docId, deviceName, docType, |acc| + j) == head + rest;
    Regroup(out, head, rest, out + head, whole);
  }

  /** The inner loop of `chunk_document`: one chunk per text of the page,
      numbered on from `|acc|`. */
  method AppendPageChunks(acc: seq<Chunk>, texts: seq<string>, extract: string -> Extracted,
                          doc: ParsedDocument, docId: string, deviceName: Option<string>, docType: DocType,
                          pageNumber: Option<int>)
    returns (out: seq<Chunk>)
    ensures out == acc + ChunksOf(Tagged(texts, pageNumber), extract, doc, docId, deviceName, docType, |acc|)
  {
    out := acc;
    var j := 0;
    while j < |texts|
      invariant PageLoop(acc, out, texts, pageNumber, extract, doc, docId, deviceName, docType, j)
    {
      var chunk := MakeChunk(Piece(texts[j], pageNumber), extract, doc, docId, deviceName, docType, |acc| + j);
      PageLoopStep(acc, out, texts, pageNumber, extract, doc, docId, deviceName, docType, j);
      out := out + [chunk];
      j := j + 1;
    }
    assert Tagged(texts, pageNumber)[j..] == [];
  }

  /** The outer loop of `chunk_document` over the pages, with the metadata
      extractor `extract`. */
  method ChunkPages(doc: ParsedDocument, docId: string, deviceName: Option<string>, docType: DocType,
                    chunkSize: nat, chunkOverlap: int, extract: string -> Extracted)
    returns (allChunks: seq<Chunk>)
    requires chunkSize >= 1
    ensures allChunks == ChunksOf(Pieces(doc.pages, chunkSize, chunkOverlap), extract, doc, docId, deviceName, docType, 0)
  {
    allChunks := [];
    var p := 0;
    ghost var whole := ChunksOf(Pieces(doc.pages, chunkSize, chunkOverlap), extract, doc, docId, deviceName, docType, 0);
    while p < |doc.pages|
      invariant p <= |doc.pages|
      invariant allChunks + ChunksOf(Pieces(doc.pages[p..], chunkSize, chunkOverlap), extract,
                                     doc, docId, deviceName, docType, |allChunks|) == whole
    {
      var page := doc.pages[p];
      if !IsBlank(page.text) {
        var textChunks := ChunkText(page.text, chunkSize, chunkOverlap);
        ghost var before := allChunks;
        allChunks := AppendPageChunks(allChunks, textChunks, extract, doc, docId, deviceName, docType, page.pageNumber);
        ChunkPagesStep(doc.pages, p, chunkSize, chunkOverlap, extract, doc, docId, deviceName, docType,
                       before, allChunks, whole);
      } else {
        ChunkPagesSkip(doc.pages, p, chunkSize, chunkOverlap, extract, doc, docId, deviceName, docType,
                       allChunks, whole);
      }
      p := p + 1;
    }
    assert doc.pages[p..] == [];
  }

  /** A blank page adds no chunks. */
  lemma ChunkPagesSkip(pages: seq<ParsedPage>, p: nat, size: nat, overlap: int, extract: string -> Extracted,
                       doc: ParsedDocument, docId: string, deviceName: Option<string>, docType: DocType,
                       acc: seq<Chunk>, whole: seq<Chunk>)
    requires size >= 1 && p < |pages| && IsBlank(pages[p].text)
    requires acc + ChunksOf(Pieces(pages[p..], size, overlap), extract, doc, docId, deviceName, docType, |acc|) == whole
    ensures acc + ChunksOf(Pieces(pages[p + 1..], size, overlap), extract, doc, docId, deviceName, docType, |acc|) == whole
  {
    PiecesAt(pages, p, size, overlap);
    assert Pieces(pages[p..], size, overlap) == Pieces(pages[p + 1..], size, overlap);
  }

  /** The pieces of `pages[p..]`: those of page `p`, then the rest. */
  lemma PiecesAt(pages: seq<ParsedPage>, p: nat, size: nat, overlap: int)
    requires size >= 1 && p < |pages|
    ensures Pieces(pages[p..], size, overlap)
         == (if IsBlank(pages[p].text) then [] else PagePieces(pages[p], size, overlap)) + Pieces(pages[p + 1..], size, overlap)
  {
    assert pages[p..][0] == pages[p] && pages[p..][1..] == pages[p + 1..];
  }

  /** A non-blank page adds the chunks of its pieces, and numbering goes on
      after them. */
  lemma ChunkPagesStep(pages: seq<ParsedPage>, p: nat, size: nat, overlap: int, extract: string -> Extracted,
                       doc: ParsedDocument, docId: string, deviceName: Option<string>, docType: DocType,
                       acc: seq<Chunk>, next: seq<Chunk>, whole: seq<Chunk>)
    requires size >= 1 && p < |pages| && !IsBlank(pages[p].text)
    requires acc + ChunksOf(Pieces(pages[p..], size, overlap), extract, doc, docId, deviceName, docType, |acc|) == whole
    requires next == acc + ChunksOf(Tagged(ChunkTextSpec(pages[p].text, size, overlap), pages[p].pageNumber),
                                    extract, doc, docId, deviceName, docType, |acc|)
    ensures next + ChunksOf(Pieces(pages[p + 1..], size, overlap), extract, doc, docId, deviceName, docType, |next|) == whole
  {
    var own := PagePieces(pages[p], size, overlap);
    var rest := Pieces(pages[p + 1..], size, overlap);
    PiecesAt(pages, p, size, overlap);
    assert Pieces(pages[p..], size, overlap) == own + rest;
    ChunksOfSplit(own, rest, extract, doc, docId, deviceName, docType, acc, next, whole);
  }

  /** Chunking `own + rest` after `acc` is chunking `own`, then `rest`
      numbered on from there. */
  lemma ChunksOfSplit(own: seq<Piece>, rest: seq<Piece>, extract: string -> Extracted,
                      doc: ParsedDocument, docId: string, deviceName: Option<string>, docType: DocType,
                      acc: seq<Chunk>, next: seq<Chunk>, whole: seq<Chunk>)
    requires acc + ChunksOf(own + rest, extract, doc, docId, deviceName, docType, |acc|) == whole
    requires next == acc + ChunksOf(own, extract, doc, docId, deviceName, docType, |acc|)
    ensures next + ChunksOf(rest, extract, doc, docId, deviceName, docType, |next|) == whole
  {
    ChunksOfAppend(own, rest, extract, doc, docId, deviceName, docType, |acc|);
    ChunksOfLength(own, extract, doc, docId, deviceName, docType, |acc|);
    SplitRegroup(acc, ChunksOf(own, extract, doc, docId, deviceName, docType, |acc|),
                 ChunksOf(rest, extract, doc, docId, deviceName, docType, |acc| + |own|),
                 ChunksOf(own + rest, extract, doc, docId, deviceName, docType, |acc|), next, whole);
  }

  lemma SplitRegroup<T>(acc: seq<T>, a: seq<T>, b: seq<T>, ab: seq<T>, next: seq<T>, whole: seq<T>)
    requires ab == a + b && acc + ab == whole && next == acc + a
    ensures next + b == whole && |next| == |acc| + |a|
  {
    assert (acc + a) + b == acc + (a + b);
  }

  lemma Regroup<T>(acc: seq<T>, a: seq<T>, b: seq<T>, next: seq<T>, whole: seq<T>)
    requires acc + (a + b) == whole && next == acc + a
    ensures next + b == whole
  {
    assert (acc + a) + b == acc + (a + b);
  }

  /** One chunk per piece. */
  lemma {:induction false} ChunksOfLength(pieces: seq<Piece>, extract: string -> Extracted, doc: ParsedDocument,
                                          docId: string, deviceName: Option<string>, docType: DocType, first: nat)
    ensures |ChunksOf(pieces, extract, doc, docId, deviceName, docType, first)| == |pieces|
    decreases |pieces|
  {
    if pieces != [] {
      ChunksOfLength(pieces[1..], extract, doc, docId, deviceName, docType, first + 1);
    }
  }

  /** `chunk_document`: the chunks of every non-blank page, in order, each
      carrying what the metadata extractor finds in its text. */
  method ChunkDocument(doc: ParsedDocument, docId: string, deviceName: Option<string>, docType: DocType,
                       chunkSize: nat, chunkOverlap: int)
    returns (allChunks: seq<Chunk>)
    requires chunkSize >= 1
    ensures allChunks == DocumentChunks(doc, docId, deviceName, docType, chunkSize, chunkOverlap)
  {
    allChunks := ChunkPages(doc, docId, deviceName, docType, chunkSize, chunkOverlap, ExtractAllMetadata);
  }

  /** The `i`-th chunk is built from the `i`-th piece, with index `first + i`. */
  lemma {:induction false} ChunksOfNumbered(pieces: seq<Piece>, extract: string -> Extracted, doc: ParsedDocument,
                                            docId: string, deviceName: Option<string>, docType: DocType, first: nat)
    ensures |ChunksOf(pieces, extract, doc, docId, deviceName, docType, first)| == |pieces|
    ensures forall i :: 0 <= i < |pieces| ==>
      ChunksOf(pieces, extract, doc, docId, deviceName, docType, first)[i]
        == MakeChunk(pieces[i], extract, doc, docId, deviceName, docType, first + i)
    decreases |pieces|
  {
    if pieces != [] {
      ChunksOfNumbered(pieces[1..], extract, doc, docId, deviceName, docType, first + 1);
    }
  }
  /** Every piece comes from a non-blank page: its text is one of that
      page's chunks and it carries that page's number. */
  lemma {:induction false} PiecesFromPages(pages: seq<ParsedPage>, size: nat, overlap: int)
    requires size >= 1
    ensures forall q :: q in Pieces(pages, size, overlap) ==>
      exists k :: 0 <= k < |pages| && !IsBlank(pages[k].text)
        && q.text in ChunkTextSpec(pages[k].text, size, overlap) && q.pageNumber == pages[k].pageNumber
  {
    if pages != [] {
      PiecesFromPages(pages[1..], size, overlap);
      forall q | q in Pieces(pages, size, overlap)
        ensures exists k :: (0 <= k < |pages| && !IsBlank(pages[k].text)
          && q.text in ChunkTextSpec(pages[k].text, size, overlap) && q.pageNumber == pages[k].pageNumber)
      {
        if q in Pieces(pages[1..], size, overlap) {
          PieceFromLaterPage(pages, size, overlap, q);
        } else {
          PieceFromFirstPage(pages, size, overlap, q);
        }
      }
    }
  }

  lemma PieceFromLaterPage(pages: seq<ParsedPage>, size: nat, overlap: int, q: Piece)
    requires size >= 1 && pages != []
    requires exists k :: (0 <= k < |pages[1..]| && !IsBlank(pages[1..][k].text)
      && q.text in ChunkTextSpec(pages[1..][k].text, size, overlap) && q.pageNumber == pages[1..][k].pageNumber)
    ensures exists k :: (0 <= k < |pages| && !IsBlank(pages[k].text)
      && q.text in ChunkTextSpec(pages[k].text, size, overlap) && q.pageNumber == pages[k].pageNumber)
  {
    var k :| 0 <= k < |pages[1..]| && !IsBlank(pages[1..][k].text)
      && q.text in ChunkTextSpec(pages[1..][k].text, size, overlap) && q.pageNumber == pages[1..][k].pageNumber;
    assert pages[1..][k] == pages[k + 1];
  }

  lemma PieceFromFirstPage(pages: seq<ParsedPage>, size: nat, overlap: int, q: Piece)
    requires size >= 1 && pages != []
    requires q in Pieces(pages, size, overlap) && q !in Pieces(pages[1..], size, overlap)
    ensures !IsBlank(pages[0].text) && q.text in ChunkTextSpec(pages[0].text, size, overlap)
            && q.pageNumber == pages[0].pageNumber
  {
    var own := PagePieces(pages[0], size, overlap);
    assert q in own;
    var j :| 0 <= j < |own| && own[j] == q;
    assert q.text == ChunkTextSpec(pages[0].text, size, overlap)[j];
  }

  /** A document has one chunk per piece of its non-blank pages. */
  lemma DocumentChunksCount(doc: ParsedDocument, docId: string, deviceName: Option<string>, docType: DocType,
                            size: nat, overlap: int)
    requires size >= 1
    ensures |DocumentChunks(doc, docId, deviceName, docType, size, overlap)| == |Pieces(doc.pages, size, overlap)|
  {
    ChunksOfNumbered(Pieces(doc.pages, size, overlap), ExtractAllMetadata, doc, docId, deviceName, docType, 0);
  }

  /** The `i`-th chunk of a document has index `i`, id `docId_chunk_i`,
      the document's identity, and exactly what the metadata extractor
      finds in its own text. */
  lemma DocumentChunksFaithful(doc: ParsedDocument, docId: string, deviceName: Option<string>, docType: DocType,
                               size: nat, overlap: int, i: nat)
    requires size >= 1
    requires i < |DocumentChunks(doc, docId, deviceName, docType, size, overlap)|
    ensures var c := DocumentChunks(doc, docId, deviceName, docType, size, overlap)[i];
      var e := ExtractAllMetadata(c.text);
      c.metadata.chunkIndex == i && c.metadata.chunkId == ChunkId(docId, i)
      && c.metadata.docId == docId && c.metadata.filename == doc.filename
      && c.metadata.deviceName == deviceName && c.metadata.docType == docType
      && c.metadata.standardsReferenced == e.standardsReferenced && c.metadata.sectionHeading == e.sectionHeading
      && c.metadata.requirementIds == e.requirementIds && c.metadata.testCaseIds == e.testCaseIds
      && c.metadata.riskIds == e.riskIds
  {
    var pieces := Pieces(doc.pages, size, overlap);
    ChunksOfNumbered(pieces, ExtractAllMetadata, doc, docId, deviceName, docType, 0);
  }

  /** The text of every chunk of a document is a good chunk of a non-blank
      page, and the chunk carries that page's number. */
  lemma DocumentChunksFromPages(doc: ParsedDocument, docId: string, deviceName: Option<string>, docType: DocType,
                                size: nat, overlap: int, i: nat)
    requires size >= 1
    requires i < |DocumentChunks(doc, docId, deviceName, docType, size, overlap)|
    ensures var c := DocumentChunks(doc, docId, deviceName, docType, size, overlap)[i];
      exists k :: (0 <= k < |doc.pages| && !IsBlank(doc.pages[k].text)
                   && GoodChunk(Strip(doc.pages[k].text), size, c.text)
                   && c.metadata.pageNumber == doc.pages[k].pageNumber)
  {
    var pieces := Pieces(doc.pages, size, overlap);
    ChunksOfNumbered(pieces, ExtractAllMetadata, doc, docId, deviceName, docType, 0);
    PiecesFromPages(doc.pages, size, overlap);
    assert pieces[i] in pieces;
    var k :| 0 <= k < |doc.pages| && !IsBlank(doc.pages[k].text)
      && pieces[i].text in ChunkTextSpec(doc.pages[k].text, size, overlap)
      && pieces[i].pageNumber == doc.pages[k].pageNumber;
    ChunkTextGood(doc.pages[k].text, size, overlap);
  }

}
