/** The older text chunker (app/services/chunker.py).

    Its window and break-point logic is the same as the backend chunker's,
    but its progress check reads `start <= chunks[-1] if chunks else 0`,
    which Python parses as `(start <= chunks[-1]) if chunks else 0`. Once a
    chunk has been kept, that compares an int with a str and raises
    `TypeError`. On a stripped text longer than the chunk size the first
    window always keeps a chunk, so every such call fails; the error is
    modelled as a `Result`. */
module LegacyChunker {
  import opened Wrappers
  import opened Strings
  import opened Parser
  import Chunker

  /** The exception the progress check raises. */
  datatype PyError = TypeError(message: string)

  const IntStrComparison := TypeError("'<=' not supported between instances of 'int' and 'str'")

  /** Chunk metadata of the `app/` tree: no extracted identifiers. */
  datatype ChunkMetadata = ChunkMetadata(docId: string, filename: string, chunkId: string,
                                         pageNumber: Option<int>, chunkIndex: int)

  datatype Chunk = Chunk(text: string, metadata: ChunkMetadata)

  // ---------------------------------------------------------------------
  // chunk_text
  // ---------------------------------------------------------------------

  /** What the older `chunk_text` does: nothing for blank text, the
      stripped text when it fits, and the `TypeError` otherwise. */
  function ChunkTextOutcome(text: string, size: nat): Result<seq<string>, PyError> {
    if IsBlank(text) then Ok([])
    else if |Strip(text)| <= size then Ok([Strip(text)])
    else Err(IntStrComparison)
  }

  /** The first window of a non-empty stripped text holds its first
      character, so it is never blank. */
  lemma FirstWindowNotBlank(t: string, size: nat)
    requires t != [] && IsStripped(t) && size >= 1
    ensures Chunker.Window(t, 0, Chunker.BreakEnd(t, 0, size)) != []
  {
    var end := Chunker.BreakEnd(t, 0, size);
    var w := t[0..if end <= |t| then end else |t|];
    assert w[0] == t[0];
    assert !IsBlank(w);
  }

  /** `chunk_text` of app/services/chunker.py. The exception leaves the
      `while` loop: the model records it in `raised`, which ends the loop. */
  method ChunkText(text: string, chunkSize: nat, chunkOverlap: int) returns (r: Result<seq<string>, PyError>)
    requires chunkSize >= 1
    ensures r == ChunkTextOutcome(text, chunkSize)
  {
    if IsBlank(text) {
      return Ok([]);
    }
    var t := Strip(text);
    if |t| <= chunkSize {
      return Ok([t]);
    }
    var chunks: seq<string> := [];
    var start: int := 0;
    var raised: Option<PyError> := None;
    while start < |t| && raised.None?
      invariant raised.None? ==> start == 0 && chunks == []
      invariant raised.Some? ==> raised == Some(IntStrComparison)
      decreases if raised.None? then 1 else 0
    {
      var end := Chunker.BreakPoint(t, start, chunkSize);
      var chunk := Strip(t[start..if end <= |t| then end else |t|]);
      if chunk != [] {
        chunks := chunks + [chunk];
      }
      start := end - chunkOverlap;
      if chunks != [] {
        // `start <= chunks[-1]`: an int compared with a str
        raised := Some(IntStrComparison);
      } else {
        FirstWindowNotBlank(t, chunkSize);
        assert false;
      }
    }
    if raised.Some? {
      return Err(raised.value);
    }
    return Ok(chunks);
  }

  /** Where the older chunker returns at all, it agrees with the backend
      chunker, and it returns exactly on blank text and text that fits. */
  lemma ChunkTextOutcomeAgrees(text: string, size: nat, overlap: int)
    requires size >= 1
    ensures ChunkTextOutcome(text, size).Ok? <==> IsBlank(text) || |Strip(text)| <= size
    ensures ChunkTextOutcome(text, size).Ok? ==>
      ChunkTextOutcome(text, size).value == Chunker.ChunkTextSpec(text, size, overlap)
  {
  }

  /** "ab" with chunk size 1: the older chunker raises ... */
  lemma LongTextRaises()
    ensures ChunkTextOutcome("ab", 1) == Err(IntStrComparison)
  {
    AbIsStripped();
  }

  lemma AbIsStripped()
    ensures !IsBlank("ab") && Strip("ab") == "ab"
  {
    var t := "ab";
    assert t[0] == 'a' && !IsSpace('a');
    assert t[1] == 'b' && !IsSpace('b');
    StripStripped(t);
  }

  /** ... while the backend chunker returns the two one-letter chunks. */
  lemma BackendChunksAb()
    ensures Chunker.ChunkTextSpec("ab", 1, 0) == ["a", "b"]
  {
    AbIsStripped();
    FirstChunkOfAb();
    SecondChunkOfAb();
  }

  lemma FirstChunkOfAb()
    ensures Chunker.ChunksFrom("ab", 0, 1, 0) == ["a"] + Chunker.ChunksFrom("ab", 1, 1, 0)
  {
    var t := "ab";
    assert t[0..1] == "a" && t[0] == 'a' && !IsSpace('a');
    StripStripped("a");
    FirstCutOfAb();
    assert Chunker.Window(t, 0, 1) == "a";
  }

  lemma SecondChunkOfAb()
    ensures Chunker.ChunksFrom("ab", 1, 1, 0) == ["b"]
  {
    var t := "ab";
    assert t[1..2] == "b" && t[1] == 'b' && !IsSpace('b');
    StripStripped("b");
    Chunker.BreakAtEnd(t, 1, 1);
    assert Chunker.Window(t, 1, 2) == "b";
    assert Chunker.ChunksFrom(t, 2, 1, 0) == [];
  }

  /** The first window of "ab" with chunk size 1 finds no boundary and is
      cut raw after one character. */
  lemma FirstCutOfAb()
    ensures Chunker.BreakEnd("ab", 0, 1) == 1
  {
    var t := "ab";
    assert t[0..1] == "a";
    Chunker.BreakEndCut(t, 0, 1);
    assert RFind(t, Chunker.ParagraphBreak, 0, 1) == -1;
    NoSentenceInShortRange(t, 0, 0, 1, 0);
    assert RFind(t, " ", 0, 1) == -1;
  }

  /** A range shorter than two characters holds no sentence separator. */
  lemma {:induction false} NoSentenceInShortRange(t: string, start: nat, lo: nat, hi: nat, k: nat)
    requires hi <= |t| && hi < lo + 2 && k <= |Chunker.Separators|
    ensures Chunker.SentenceBreak(t, start, lo, hi, k).None?
    decreases |Chunker.Separators| - k
  {
    if k < |Chunker.Separators| {
      assert |Chunker.Separators[k]| == 2;
      NoSentenceInShortRange(t, start, lo, hi, k + 1);
    }
  }

  // ---------------------------------------------------------------------
  // chunk_document and chunk_pages_by_page
  // ---------------------------------------------------------------------

  /** The chunks built for the texts of one page, numbered from `first`. */
  function PageChunks(texts: seq<string>, pageNumber: Option<int>, docId: string, filename: string,
                      first: nat): seq<Chunk>
    decreases |texts|
  {
    if texts == [] then []
    else [Chunk(texts[0], ChunkMetadata(docId, filename, Chunker.ChunkId(docId, first), pageNumber, first))]
         + PageChunks(texts[1..], pageNumber, docId, filename, first + 1)
  }

  /** What chunking `pages` returns, numbering chunks from `first`: blank
      pages are skipped, and the first page whose text does not fit raises. */
  function PagesOutcome(pages: seq<ParsedPage>, docId: string, filename: string, size: nat,
                        first: nat): Result<seq<Chunk>, PyError>
    decreases |pages|
  {
    if pages == [] then Ok([])
    else if IsBlank(pages[0].text) then PagesOutcome(pages[1..], docId, filename, size, first)
    else match ChunkTextOutcome(pages[0].text, size)
      case Err(e) => Err(e)
      case Ok(texts) =>
        match PagesOutcome(pages[1..], docId, filename, size, first + |texts|)
        case Err(e) => Err(e)
        case Ok(rest) => Ok(PageChunks(texts, pages[0].pageNumber, docId, filename, first) + rest)
  }

  /** `acc` followed by the outcome `r`. */
  function Prepend(acc: seq<Chunk>, r: Result<seq<Chunk>, PyError>): Result<seq<Chunk>, PyError> {
    match r
    case Ok(cs) => Ok(acc + cs)
    case Err(e) => Err(e)
  }

  lemma Regroup<T>(acc: seq<T>, a: seq<T>, b: seq<T>, next: seq<T>, whole: seq<T>)
    requires acc + (a + b) == whole && next == acc + a
    ensures next + b == whole
  {
    assert (acc + a) + b == acc + (a + b);
  }

  /** The invariant of the inner loop: after `j` texts, `out` followed by
      the chunks of the remaining texts is `acc` followed by the page's chunks. */
  ghost predicate TextsLoop(acc: seq<Chunk>, out: seq<Chunk>, texts: seq<string>, pageNumber: Option<int>,
                            docId: string, filename: string, j: nat)
  {
    j <= |texts| && |out| == |acc| + j
    && out + PageChunks(texts[j..], pageNumber, docId, filename, |acc| + j)
       == acc + PageChunks(texts, pageNumber, docId, filename, |acc|)
  }

  lemma TextsLoopStep(acc: seq<Chunk>, out: seq<Chunk>, texts: seq<string>, pageNumber: Option<int>,
                      docId: string, filename: string, j: nat)
    requires TextsLoop(acc, out, texts, pageNumber, docId, filename, j) && j < |texts|
    ensures TextsLoop(acc, out + [Chunk(texts[j], ChunkMetadata(docId, filename, Chunker.ChunkId(docId, |acc| + j),
                                                               pageNumber, |acc| + j))],
                      texts, pageNumber, docId, filename, j + 1)
  {
    assert texts[j..][0] == texts[j] && texts[j..][1..] == texts[j + 1..];
    var whole := acc + PageChunks(texts, pageNumber, docId, filename, |acc|);
    var head := [Chunk(texts[j], ChunkMetadata(docId, filename, Chunker.ChunkId(docId, |acc| + j), pageNumber, |acc| + j))];
    var rest := PageChunks(texts[j + 1..], pageNumber, docId, filename, |acc| + j + 1);
    assert PageChunks(texts[j..], pageNumber, docId, filename, |acc| + j) == head + rest;
    Regroup(out, head, rest, out + head, whole);
  }

  /** The invariant of the page loop: after `p` pages, `acc` followed by
      the outcome of the remaining pages is `whole`, the outcome of all of them. */
  ghost predicate PagesLoop(pages: seq<ParsedPage>, docId: string, filename: string, size: nat,
                            acc: seq<Chunk>, p: nat, whole: Result<seq<Chunk>, PyError>)
  {
    p <= |pages| && Prepend(acc, PagesOutcome(pages[p..], docId, filename, size, |acc|)) == whole
  }

  /** The pages from `p` on: page `p`, then the rest. */
  lemma PagesAt(pages: seq<ParsedPage>, p: nat)
    requires p < |pages|
    ensures pages[p..][0] == pages[p] && pages[p..][1..] == pages[p + 1..]
  {
  }

  lemma PagesLoopInit(pages: seq<ParsedPage>, docId: string, filename: string, size: nat)
    ensures PagesLoop(pages, docId, filename, size, [], 0, PagesOutcome(pages, docId, filename, size, 0))
  {
    assert pages[0..] == pages;
    var r := PagesOutcome(pages, docId, filename, size, 0);
    if r.Ok? {
      assert [] + r.value == r.value;
    }
  }

  lemma PagesLoopDone(pages: seq<ParsedPage>, docId: string, filename: string, size: nat, acc: seq<Chunk>,
                      whole: Result<seq<Chunk>, PyError>)
    requires PagesLoop(pages, docId, filename, size, acc, |pages|, whole)
    ensures whole == Ok(acc)
  {
    assert pages[|pages|..] == [];
    assert acc + [] == acc;
  }

  lemma PagesLoopSkip(pages: seq<ParsedPage>, docId: string, filename: string, size: nat, acc: seq<Chunk>, p: nat,
                      whole: Result<seq<Chunk>, PyError>)
    requires PagesLoop(pages, docId, filename, size, acc, p, whole) && p < |pages| && IsBlank(pages[p].text)
    ensures PagesLoop(pages, docId, filename, size, acc, p + 1, whole)
  {
    PagesAt(pages, p);
  }

  lemma PagesLoopRaise(pages: seq<ParsedPage>, docId: string, filename: string, size: nat, acc: seq<Chunk>, p: nat,
                       whole: Result<seq<Chunk>, PyError>)
    requires PagesLoop(pages, docId, filename, size, acc, p, whole) && p < |pages| && !IsBlank(pages[p].text)
    requires ChunkTextOutcome(pages[p].text, size).Err?
    ensures whole == Err(ChunkTextOutcome(pages[p].text, size).error)
  {
    PagesAt(pages, p);
  }

  lemma PagesLoopStep(pages: seq<ParsedPage>, docId: string, filename: string, size: nat,
                      acc: seq<Chunk>, texts: seq<string>, next: seq<Chunk>, p: nat, whole: Result<seq<Chunk>, PyError>)
    requires PagesLoop(pages, docId, filename, size, acc, p, whole) && p < |pages| && !IsBlank(pages[p].text)
    requires ChunkTextOutcome(pages[p].text, size) == Ok(texts)
    requires next == acc + PageChunks(texts, pages[p].pageNumber, docId, filename, |acc|)
    ensures PagesLoop(pages, docId, filename, size, next, p + 1, whole)
  {
    var own := PageChunks(texts, pages[p].pageNumber, docId, filename, |acc|);
    PageChunksLength(texts, pages[p].pageNumber, docId, filename, |acc|);
    var later := PagesOutcome(pages[p + 1..], docId, filename, size, |acc| + |texts|);
    PagesOutcomeOk(pages, docId, filename, size, |acc|, p);
    LoopAdvance(acc, own, next, PagesOutcome(pages[p..], docId, filename, size, |acc|), later, whole);
  }

  lemma LoopAdvance(acc: seq<Chunk>, own: seq<Chunk>, next: seq<Chunk>, now: Result<seq<Chunk>, PyError>,
                    later: Result<seq<Chunk>, PyError>, whole: Result<seq<Chunk>, PyError>)
    requires Prepend(acc, now) == whole && now == Prepend(own, later) && next == acc + own
    ensures Prepend(next, later) == whole
  {
    if later.Ok? {
      assert acc + (own + later.value) == (acc + own) + later.value;
    }
  }

  /** A page that chunks puts its chunks in front of what the later pages give. */
  lemma PagesOutcomeOk(pages: seq<ParsedPage>, docId: string, filename: string, size: nat, first: nat, p: nat)
    requires p < |pages| && !IsBlank(pages[p].text) && ChunkTextOutcome(pages[p].text, size).Ok?
    ensures PagesOutcome(pages[p..], docId, filename, size, first)
            == Prepend(PageChunks(ChunkTextOutcome(pages[p].text, size).value, pages[p].pageNumber, docId, filename, first),
                       PagesOutcome(pages[p + 1..], docId, filename, size, first + |ChunkTextOutcome(pages[p].text, size).value|))
  {
    PagesAt(pages, p);
  }

  lemma {:induction false} PageChunksLength(texts: seq<string>, pageNumber: Option<int>, docId: string,
                                            filename: string, first: nat)
    ensures |PageChunks(texts, pageNumber, docId, filename, first)| == |texts|
    decreases |texts|
  {
    if texts != [] {
      PageChunksLength(texts[1..], pageNumber, docId, filename, first + 1);
    }
  }

  /** The inner loop of `chunk_pages_by_page`: one chunk per text of the
      page, with the running chunk index. */
  method AppendTextChunks(acc: seq<Chunk>, texts: seq<string>, pageNumber: Option<int>, docId: string,
                          filename: string)
    returns (out: seq<Chunk>)
    ensures out == acc + PageChunks(texts, pageNumber, docId, filename, |acc|)
  {
    out := acc;
    var chunkIndex := |acc|;
    var j := 0;
    while j < |texts|
      invariant TextsLoop(acc, out, texts, pageNumber, docId, filename, j)
      invariant chunkIndex == |out|
    {
      var chunkId := Chunker.ChunkId(docId, chunkIndex);
      var chunk := Chunk(texts[j], ChunkMetadata(docId, filename, chunkId, pageNumber, chunkIndex));
      TextsLoopStep(acc, out, texts, pageNumber, docId, filename, j);
      out := out + [chunk];
      chunkIndex := chunkIndex + 1;
      j := j + 1;
    }
    assert texts[j..] == [];
  }

  /** `chunk_pages_by_page`: the chunks of every non-blank page, in order,
      with ids numbered on across pages; the first page whose text does
      not fit makes the call raise. */
  method ChunkPagesByPage(pages: seq<ParsedPage>, docId: string, filename: string,
                          chunkSize: nat, chunkOverlap: int)
    returns (r: Result<seq<Chunk>, PyError>)
    requires chunkSize >= 1
    ensures r == PagesOutcome(pages, docId, filename, chunkSize, 0)
  {
    var allChunks: seq<Chunk> := [];
    var chunkIndex := 0;
    var p := 0;
    ghost var whole := PagesOutcome(pages, docId, filename, chunkSize, 0);
    PagesLoopInit(pages, docId, filename, chunkSize);
    while p < |pages|
      invariant PagesLoop(pages, docId, filename, chunkSize, allChunks, p, whole) && chunkIndex == |allChunks|
    {
      var page := pages[p];
      if IsBlank(page.text) {
        PagesLoopSkip(pages, docId, filename, chunkSize, allChunks, p, whole);
      } else {
        var textChunks := ChunkText(page.text, chunkSize, chunkOverlap);
        if textChunks.Err? {
          PagesLoopRaise(pages, docId, filename, chunkSize, allChunks, p, whole);
          return Err(textChunks.error);
        }
        var texts := textChunks.value;
        ghost var before := allChunks;
        allChunks := AppendTextChunks(allChunks, texts, page.pageNumber, docId, filename);
        chunkIndex := |allChunks|;
        PagesLoopStep(pages, docId, filename, chunkSize, before, texts, allChunks, p, whole);
      }
      p := p + 1;
    }
    PagesLoopDone(pages, docId, filename, chunkSize, allChunks, whole);
    return Ok(allChunks);
  }

  /** `chunk_document` of app/services/chunker.py: the same loop over the
      document's pages, with the document's file name. */
  method ChunkDocument(doc: ParsedDocument, docId: string, chunkSize: nat, chunkOverlap: int)
    returns (r: Result<seq<Chunk>, PyError>)
    requires chunkSize >= 1
    ensures r == PagesOutcome(doc.pages, docId, doc.filename, chunkSize, 0)
  {
    r := ChunkPagesByPage(doc.pages, docId, doc.filename, chunkSize, chunkOverlap);
  }

  // ---------------------------------------------------------------------
  // What document chunking promises
  // ---------------------------------------------------------------------

  /** The pages whose text is not blank, in order. */
  function NonBlankPages(pages: seq<ParsedPage>): (kept: seq<ParsedPage>)
    ensures |kept| <= |pages|
    ensures forall q :: q in kept ==> q in pages && !IsBlank(q.text)
  {
    if pages == [] then []
    else if IsBlank(pages[0].text) then NonBlankPages(pages[1..])
    else [pages[0]] + NonBlankPages(pages[1..])
  }

  /** Some non-blank page of `pages` does not fit in one chunk of `size`. */
  ghost predicate SomePageTooLong(pages: seq<ParsedPage>, size: nat) {
    exists k :: 0 <= k < |pages| && !IsBlank(pages[k].text) && |Strip(pages[k].text)| > size
  }

  lemma SomePageTooLongCons(pages: seq<ParsedPage>, size: nat)
    requires pages != []
    ensures SomePageTooLong(pages, size) <==>
      (!IsBlank(pages[0].text) && |Strip(pages[0].text)| > size) || SomePageTooLong(pages[1..], size)
  {
    if SomePageTooLong(pages[1..], size) {
      var k :| 0 <= k < |pages[1..]| && !IsBlank(pages[1..][k].text) && |Strip(pages[1..][k].text)| > size;
      assert pages[k + 1] == pages[1..][k];
    }
    if SomePageTooLong(pages, size) {
      var k :| 0 <= k < |pages| && !IsBlank(pages[k].text) && |Strip(pages[k].text)| > size;
      if k > 0 {
        assert pages[1..][k - 1] == pages[k];
      }
    }
  }

  /** Chunking raises exactly when some non-blank page does not fit in one
      chunk, and then it raises the int/str comparison error. */
  lemma {:induction false} PagesOutcomeErrIff(pages: seq<ParsedPage>, docId: string, filename: string,
                                              size: nat, first: nat)
    ensures PagesOutcome(pages, docId, filename, size, first).Err? <==> SomePageTooLong(pages, size)
    ensures PagesOutcome(pages, docId, filename, size, first).Err? ==>
      PagesOutcome(pages, docId, filename, size, first).error == IntStrComparison
    decreases |pages|
  {
    if pages != [] {
      SomePageTooLongCons(pages, size);
      var text := pages[0].text;
      if IsBlank(text) {
        PagesOutcomeErrIff(pages[1..], docId, filename, size, first);
      } else if |Strip(text)| > size {
        assert ChunkTextOutcome(text, size) == Err(IntStrComparison);
      } else {
        PagesOutcomeErrIff(pages[1..], docId, filename, size, first + 1);
        PagesOutcomeFits(pages, docId, filename, size, first);
      }
    }
  }

  /** A first page that fits adds its chunk in front of what the rest gives. */
  lemma PagesOutcomeFits(pages: seq<ParsedPage>, docId: string, filename: string, size: nat, first: nat)
    requires pages != [] && !IsBlank(pages[0].text) && |Strip(pages[0].text)| <= size
    ensures PagesOutcome(pages, docId, filename, size, first)
            == Prepend(PageChunks([Strip(pages[0].text)], pages[0].pageNumber, docId, filename, first),
                       PagesOutcome(pages[1..], docId, filename, size, first + 1))
  {
    assert ChunkTextOutcome(pages[0].text, size) == Ok([Strip(pages[0].text)]);
  }

  /** The one chunk a page that fits gives. */
  lemma OnePageChunk(text: string, pageNumber: Option<int>, docId: string, filename: string, size: nat, first: nat)
    requires !IsBlank(text) && |Strip(text)| <= size
    ensures ChunkTextOutcome(text, size) == Ok([Strip(text)])
    ensures PageChunks([Strip(text)], pageNumber, docId, filename, first)
            == [Chunk(Strip(text), ChunkMetadata(docId, filename, Chunker.ChunkId(docId, first), pageNumber, first))]
  {
    assert [Strip(text)][1..] == [];
  }

  /** The chunk the model expects at position `i` of a document's chunks. */
  ghost predicate PageChunkAt(cs: seq<Chunk>, kept: seq<ParsedPage>, docId: string, filename: string,
                              first: nat, i: nat)
    requires i < |cs| && i < |kept|
  {
    cs[i] == Chunk(Strip(kept[i].text),
                   ChunkMetadata(docId, filename, Chunker.ChunkId(docId, first + i), kept[i].pageNumber, first + i))
  }

  lemma PageChunkAtShift(c: Chunk, page: ParsedPage, rest: seq<Chunk>, later: seq<ParsedPage>,
                         docId: string, filename: string, first: nat, second: nat)
    requires |rest| == |later| && second == first + 1
    requires c == Chunk(Strip(page.text), ChunkMetadata(docId, filename, Chunker.ChunkId(docId, first), page.pageNumber, first))
    requires forall i :: 0 <= i < |rest| ==> PageChunkAt(rest, later, docId, filename, second, i)
    ensures forall i :: 0 <= i < |rest| + 1 ==> PageChunkAt([c] + rest, [page] + later, docId, filename, first, i)
  {
    forall i | 0 <= i < |rest| + 1
      ensures PageChunkAt([c] + rest, [page] + later, docId, filename, first, i)
    {
      if i > 0 {
        assert PageChunkAt(rest, later, docId, filename, second, i - 1);
      }
    }
  }

  /** When chunking succeeds it gives one chunk per non-blank page, in page
      order: the page's stripped text, its page number, the document's id
      and file name, and indexes and ids numbered on from `first`. */
  lemma {:induction false} PagesOutcomeOnePerPage(pages: seq<ParsedPage>, docId: string, filename: string,
                                                  size: nat, first: nat)
    requires PagesOutcome(pages, docId, filename, size, first).Ok?
    ensures |PagesOutcome(pages, docId, filename, size, first).value| == |NonBlankPages(pages)|
    ensures forall i :: 0 <= i < |NonBlankPages(pages)| ==>
      PageChunkAt(PagesOutcome(pages, docId, filename, size, first).value, NonBlankPages(pages), docId, filename, first, i)
    decreases |pages|
  {
    if pages != [] {
      if IsBlank(pages[0].text) {
        PagesOutcomeOnePerPage(pages[1..], docId, filename, size, first);
      } else {
        assert ChunkTextOutcome(pages[0].text, size).Ok?;
        OnePageChunk(pages[0].text, pages[0].pageNumber, docId, filename, size, first);
        PagesOutcomeOnePerPage(pages[1..], docId, filename, size, first + 1);
        var rest := PagesOutcome(pages[1..], docId, filename, size, first + 1).value;
        var c := Chunk(Strip(pages[0].text),
                       ChunkMetadata(docId, filename, Chunker.ChunkId(docId, first), pages[0].pageNumber, first));
        assert PagesOutcome(pages, docId, filename, size, first).value == [c] + rest;
        PageChunkAtShift(c, pages[0], rest, NonBlankPages(pages[1..]), docId, filename, first, first + 1);
      }
    }
  }
}
