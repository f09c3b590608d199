/** The grounded-answer helpers of backend/app/services/llm.py: source
    formatting for the prompt, the answer with its fallbacks, the checks of
    `verify_answer` made before and around the model call, and citation
    extraction. The chat model is the parameter `chat`, which answers a
    model name, a system prompt and a user message with the reply text, or
    `None` when the call raises. Chunks are the hits `query_chunks`
    returns. */
module Llm {
  import opened Wrappers
  import opened Strings
  import opened MetaValues
  import opened Config
  import opened Models
  import opened VectorStore

  // ---------------------------------------------------------------------
  // format_sources_for_prompt
  // ---------------------------------------------------------------------

  /** Python's `str(v)` as an f-string prints a metadata value. */
  function ValueText(v: Value): string {
    match v
    case Null => "None"
    case Str(s) => s
    case Int(i) => IntToString(i)
    case StrList(items) => "[" + Join(seq(|items|, k requires 0 <= k < |items| => "'" + items[k] + "'"), ", ") + "]"
  }

  const NoSources: string := "No sources available."
  const SourceSeparator: string := "\n\n---\n\n"

  /** The block for the `i`-th source (numbered from 1). */
  function SourceBlock(i: nat, h: Hit): string {
    "[Source " + NatToString(i) + "] (File: " + ValueText(GetOr(h.metadata, "filename", Str("Unknown")))
    + ", Page: " + ValueText(GetOr(h.metadata, "page_number", Str("N/A"))) + ")\n" + h.text
  }

  /** The blocks of all sources, numbered from 1 in input order. */
  function SourceBlocks(hits: seq<Hit>): (blocks: seq<string>)
    ensures |blocks| == |hits|
  {
    seq(|hits|, i requires 0 <= i < |hits| => SourceBlock(i + 1, hits[i]))
  }

  function FormatSourcesOf(hits: seq<Hit>): string {
    if hits == [] then NoSources else Join(SourceBlocks(hits), SourceSeparator)
  }

  /** `format_sources_for_prompt`. */
  method FormatSources(hits: seq<Hit>) returns (text: string)
    ensures text == FormatSourcesOf(hits)
  {
    if hits == [] {
      return NoSources;
    }
    var sources: seq<string> := [];
    for i := 0 to |hits|
      invariant sources == SourceBlocks(hits)[..i]
    {
      sources := sources + [SourceBlock(i + 1, hits[i])];
      assert sources == SourceBlocks(hits)[..i + 1];
    }
    assert sources == SourceBlocks(hits);
    text := Join(sources, SourceSeparator);
  }

  /** A joined list of strings starts with its first part. */
  lemma JoinStartsWithFirst(parts: seq<string>, sep: string)
    requires parts != []
    ensures parts[0] <= Join(parts, sep)
  {
  }

  /** Every source appears, with its number, in the formatted text. */
  lemma FormatSourcesCites(hits: seq<Hit>, k: nat)
    requires k < |hits|
    ensures Contains(FormatSourcesOf(hits), SourceBlock(k + 1, hits[k]))
  {
    JoinContains(SourceBlocks(hits), SourceSeparator, k);
  }

  /** The placeholder text is produced exactly when there are no sources. */
  lemma FormatSourcesEmpty(hits: seq<Hit>)
    ensures FormatSourcesOf(hits) == NoSources <==> hits == []
  {
    if hits != [] {
      var blocks := SourceBlocks(hits);
      JoinStartsWithFirst(blocks, SourceSeparator);
      assert blocks[0][0] == '[';
      assert FormatSourcesOf(hits)[0] == '[';
    }
  }

  // ---------------------------------------------------------------------
  // _generate_fallback_answer
  // ---------------------------------------------------------------------

  const NotEnoughEvidenceOpening: string := "Not enough evidence"
  const NotEnoughEvidence: string := NotEnoughEvidenceOpening + " found in the uploaded documents to answer this question."
  const FallbackIntro: string := "Based on the uploaded documents:\n"
  const FallbackNote: string := "\n\nNote: This is an extractive summary. Enable OpenAI API for full RAG capabilities."

  /** The excerpt of the `i`-th source: its page and the first 300
      characters of its text, quoted. */
  function Excerpt(i: nat, h: Hit): string {
    "\n[Source " + NatToString(i) + "] (Page " + ValueText(GetOr(h.metadata, "page_number", Str("N/A")))
    + "):\n\"" + Prefix(h.text, 300) + "...\""
  }

  /** The excerpts of the first three sources. */
  function Excerpts(hits: seq<Hit>): (parts: seq<string>)
    ensures |parts| == if |hits| < 3 then |hits| else 3
  {
    var top := Prefix(hits, 3);
    seq(|top|, i requires 0 <= i < |top| => Excerpt(i + 1, top[i]))
  }

  function FallbackAnswerOf(hits: seq<Hit>): (string, bool) {
    if hits == [] then (NotEnoughEvidence, true)
    else (Join([FallbackIntro] + Excerpts(hits) + [FallbackNote], "\n"), false)
  }

  /** `_generate_fallback_answer`; the query is not used. */
  method FallbackAnswer(query: string, hits: seq<Hit>) returns (answer: string, fallbackUsed: bool)
    ensures (answer, fallbackUsed) == FallbackAnswerOf(hits)
  {
    if hits == [] {
      return NotEnoughEvidence, true;
    }
    var top := Prefix(hits, 3);
    var parts := [FallbackIntro];
    for i := 0 to |top|
      invariant parts == [FallbackIntro] + Excerpts(hits)[..i]
    {
      parts := parts + [Excerpt(i + 1, top[i])];
      assert parts == [FallbackIntro] + Excerpts(hits)[..i + 1];
    }
    assert Excerpts(hits)[..|top|] == Excerpts(hits);
    parts := parts + [FallbackNote];
    answer := Join(parts, "\n");
    fallbackUsed := false;
  }

  /** The extractive answer quotes each of the first three sources, and
      only the first 300 characters of each; it is flagged as a fallback
      only when there are no sources. */
  lemma FallbackAnswerQuotes(hits: seq<Hit>, k: nat)
    requires k < |hits| && k < 3
    ensures !FallbackAnswerOf(hits).1
    ensures Contains(FallbackAnswerOf(hits).0, Excerpt(k + 1, hits[k]))
    ensures |Prefix(hits[k].text, 300)| <= 300 && Prefix(hits[k].text, 300) <= hits[k].text
  {
    var parts := [FallbackIntro] + Excerpts(hits) + [FallbackNote];
    assert parts[k + 1] == Excerpt(k + 1, hits[k]);
    JoinContains(parts, "\n", k + 1);
  }

  /** At most three sources are quoted: the answer has the introduction,
      one part per quoted source and the closing note. */
  lemma FallbackAnswerParts(hits: seq<Hit>)
    requires hits != []
    ensures var parts := [FallbackIntro] + Excerpts(hits) + [FallbackNote];
      && FallbackAnswerOf(hits).0 == Join(parts, "\n")
      && |parts| == 2 + (if |hits| < 3 then |hits| else 3)
      && parts[0] == FallbackIntro && parts[|parts| - 1] == FallbackNote
  {
  }

  // ---------------------------------------------------------------------
  // generate_grounded_answer
  // ---------------------------------------------------------------------

  /** The two system prompts. */
  datatype SystemPrompt = GroundedAnswerPrompt | EvidenceCheckPrompt

  /** The user message of the answering call. */
  function AnswerMessage(query: string, hits: seq<Hit>): string {
    "Question: " + query + "\n\nSources:\n" + FormatSourcesOf(hits)
    + "\n\nPlease answer the question based ONLY on the sources above. Cite sources using [Source X] format."
  }

  const FallbackPhrases: seq<string> := [
    "not enough evidence", "cannot find", "no information",
    "sources do not contain", "unable to find", "not mentioned in"
  ]

  /** The answer says, in any case, that the sources do not answer. */
  predicate NamesFallback(answer: string) {
    exists i :: 0 <= i < |FallbackPhrases| && Contains(Lower(answer), FallbackPhrases[i])
  }

  /** `model or settings.llm_model`. */
  function ModelName(model: Option<string>, s: Settings): string {
    if model.Some? && model.value != "" then model.value else s.llmModel
  }

  /** `generate_grounded_answer`: the answer and whether it is a fallback. */
  function GroundedAnswer(query: string, hits: seq<Hit>, model: Option<string>, s: Settings,
                          chat: (string, SystemPrompt, string) -> Option<string>): (r: (string, bool))
    ensures hits == [] ==> r == (NotEnoughEvidence, true)
    ensures r.1 ==> hits == [] || NamesFallback(r.0)
  {
    if hits == [] then (NotEnoughEvidence, true)
    else if !UseOpenAiEmbeddings(s) then FallbackAnswerOf(hits)
    else
      var reply := chat(ModelName(model, s), GroundedAnswerPrompt, AnswerMessage(query, hits));
      if reply.None? then FallbackAnswerOf(hits)
      else
        var answer := Strip(reply.value);
        (answer, NamesFallback(answer))
  }

  /** Without sources the model is not asked and the canned answer is a
      fallback; without OpenAI, or when the call fails, the answer is the
      extractive one. */
  lemma GroundedAnswerOffline(query: string, hits: seq<Hit>, model: Option<string>, s: Settings,
                              chat: (string, SystemPrompt, string) -> Option<string>)
    ensures hits == [] ==> GroundedAnswer(query, hits, model, s, chat) == (NotEnoughEvidence, true)
    ensures hits != [] && !UseOpenAiEmbeddings(s) ==> GroundedAnswer(query, hits, model, s, chat) == FallbackAnswerOf(hits)
    ensures hits != [] && !UseOpenAiEmbeddings(s) ==> !GroundedAnswer(query, hits, model, s, chat).1
  {
  }

  /** A model reply is flagged as a fallback exactly when it names one of
      the phrases, in any case. */
  lemma GroundedAnswerFlag(query: string, hits: seq<Hit>, model: Option<string>, s: Settings,
                           chat: (string, SystemPrompt, string) -> Option<string>)
    requires hits != [] && UseOpenAiEmbeddings(s)
    requires chat(ModelName(model, s), GroundedAnswerPrompt, AnswerMessage(query, hits)).Some?
    ensures var (answer, flag) := GroundedAnswer(query, hits, model, s, chat);
      && answer == Strip(chat(ModelName(model, s), GroundedAnswerPrompt, AnswerMessage(query, hits)).value)
      && (flag <==> exists i :: 0 <= i < |FallbackPhrases| && Contains(Lower(answer), FallbackPhrases[i]))
  {
  }

  /** The canned answer names the first fallback phrase. */
  lemma NotEnoughEvidenceNamesFallback()
    ensures Contains(Lower(NotEnoughEvidence), "not enough evidence")
    ensures NamesFallback(NotEnoughEvidence)
  {
    var low := Lower(NotEnoughEvidence);
    assert |NotEnoughEvidenceOpening| == 19;
    assert low[..19] == Lower(NotEnoughEvidenceOpening);
    assert Lower(NotEnoughEvidenceOpening) == "not enough evidence";
    assert low[0..19] == "not enough evidence";
    ContainsAt(low, "not enough evidence", 0);
    assert FallbackPhrases[0] == "not enough evidence";
  }

  // ---------------------------------------------------------------------
  // verify_answer
  // ---------------------------------------------------------------------

  /** The user message of the verifying call. */
  function VerifyMessage(answer: string, hits: seq<Hit>): string {
    "Answer to verify:\n" + answer + "\n\nSources used:\n" + FormatSourcesOf(hits)
    + "\n\nVerify if the answer is properly grounded in the sources."
  }

  /** What decoding the JSON between the first `{` and the last `}` gives:
      a validated record, a decoding or validation error (both caught as
      `ValueError`), or a JSON value that is not an object, whose missing
      `.get` raises outside that handler. */
  datatype Decoded = Record(v: VerificationResult) | Invalid | NotAnObject

  function Verification(grounded: bool, confirmed: bool, review: bool, confidence: real): VerificationResult {
    VerificationResult(grounded, confirmed, review, confidence)
  }

  /** `verify_answer`. `decode` stands for `json.loads` followed by the
      record's validation with its defaults. */
  function VerifyAnswer(answer: string, hits: seq<Hit>, model: Option<string>, s: Settings,
                        chat: (string, SystemPrompt, string) -> Option<string>,
                        decode: string -> Decoded): (r: VerificationResult)
    ensures Contains(Lower(answer), "not enough evidence") ==> r == Verification(true, true, false, 1.0)
    ensures !Contains(Lower(answer), "not enough evidence") && !UseOpenAiEmbeddings(s) ==> r.needsHumanReview
  {
    if Contains(Lower(answer), "not enough evidence") then Verification(true, true, false, 1.0)
    else if !UseOpenAiEmbeddings(s) then Verification(true, true, true, 0.7)
    else
      var reply := chat(ModelName(model, s), EvidenceCheckPrompt, VerifyMessage(answer, hits));
      if reply.None? then Verification(true, true, true, 0.5)
      else
        var text := Strip(reply.value);
        var start := Find(text, '{');
        var last := RFindChar(text, '}');
        if start < 0 || last < start then Verification(true, true, true, 0.7)
        else
          match decode(text[start..last + 1])
          case Record(v) => v
          case Invalid => Verification(true, true, true, 0.7)
          case NotAnObject => Verification(true, true, true, 0.5)
  }

  /** An answer saying there is not enough evidence is accepted as
      grounded with full confidence, and without OpenAI every other answer
      is sent to a human with confidence 0.7; the model is asked only
      otherwise. */
  lemma VerifyAnswerWithoutModel(answer: string, hits: seq<Hit>, model: Option<string>, s: Settings,
                                 chat: (string, SystemPrompt, string) -> Option<string>,
                                 decode: string -> Decoded)
    ensures var v := VerifyAnswer(answer, hits, model, s, chat, decode);
      && (Contains(Lower(answer), "not enough evidence") ==>
            v.sourceGrounded && v.evidenceConfirmed && !v.needsHumanReview && v.confidenceScore == 1.0)
      && (!Contains(Lower(answer), "not enough evidence") && !UseOpenAiEmbeddings(s) ==>
            v.sourceGrounded && v.evidenceConfirmed && v.needsHumanReview && v.confidenceScore == 0.7)
  {
  }

  /** When the model is asked but answers nothing usable, the result asks
      for human review: 0.5 when the call fails, 0.7 when the reply holds
      no '{' or no '}' after its first '{' (an empty slice `json.loads`
      rejects). */
  lemma VerifyAnswerUnusableReply(answer: string, hits: seq<Hit>, model: Option<string>, s: Settings,
                                  chat: (string, SystemPrompt, string) -> Option<string>,
                                  decode: string -> Decoded)
    requires !Contains(Lower(answer), "not enough evidence") && UseOpenAiEmbeddings(s)
    ensures var reply := chat(ModelName(model, s), EvidenceCheckPrompt, VerifyMessage(answer, hits));
      var v := VerifyAnswer(answer, hits, model, s, chat, decode);
      && (reply.None? ==> v == Verification(true, true, true, 0.5))
      && (reply.Some? && '{' !in Strip(reply.value) ==> v == Verification(true, true, true, 0.7))
      && (reply.Some? && RFindChar(Strip(reply.value), '}') < Find(Strip(reply.value), '{') ==>
            v == Verification(true, true, true, 0.7))
  {
  }

  /** The canned answer for no sources is always verified as grounded with
      full confidence, whatever the settings and the model. */
  lemma CannedAnswerVerified(query: string, model: Option<string>, s: Settings,
                             chat: (string, SystemPrompt, string) -> Option<string>, decode: string -> Decoded)
    ensures var (answer, _) := GroundedAnswer(query, [], model, s, chat);
      VerifyAnswer(answer, [], model, s, chat, decode) == Verification(true, true, false, 1.0)
  {
    NotEnoughEvidenceNamesFallback();
  }

  // ---------------------------------------------------------------------
  // extract_citations
  // ---------------------------------------------------------------------

  const MaxSnippetLength: nat := 150

  /** Why building a citation raises: a chunk id that is not a string fails
      the record's validation, and a page number that is not an integer
      cannot be compared with 0. */
  datatype CitationError = ChunkIdNotString | PageNotComparable

  /** `text[:n]`, with "..." appended when the text is longer. */
  function Snippet(text: string, n: nat): (r: string)
    ensures |text| <= n ==> r == text
    ensures |text| > n ==> |r| == n + 3 && r[..n] == text[..n] && r[n..] == "..."
  {
    Prefix(text, n) + (if |text| > n then "..." else "")
  }

  /** `max(0, min(1, 1 - distance))`. */
  function Relevance(distance: real): (r: real)
    ensures 0.0 <= r <= 1.0
    ensures 0.0 <= 1.0 - distance <= 1.0 ==> r == 1.0 - distance
    ensures distance <= 0.0 ==> r == 1.0
    ensures distance >= 1.0 ==> r == 0.0
  {
    var x := 1.0 - distance;
    if x < 0.0 then 0.0 else if x > 1.0 then 1.0 else x
  }

  /** `metadata.get("page_number") if metadata.get("page_number", -1) > 0
      else None`. */
  function CitedPage(m: Metadata): (r: Result<Option<int>, CitationError>)
    ensures r.Ok? && r.value.Some? ==> "page_number" in m && r.value.value > 0 && m["page_number"] == Int(r.value.value)
    ensures r.Err? <==> "page_number" in m && !m["page_number"].Int?
  {
    if "page_number" !in m then Ok(None)
    else if !m["page_number"].Int? then Err(PageNotComparable)
    else if m["page_number"].i > 0 then Ok(Some(m["page_number"].i))
    else Ok(None)
  }

  /** The citation for one chunk. */
  function CitationOf(h: Hit, n: nat): (r: Result<Citation, CitationError>)
    ensures r.Ok? ==> r.value.snippet == Snippet(h.text, n) && r.value.relevanceScore == Relevance(h.distance)
  {
    var id := GetOr(h.metadata, "chunk_id", Str("unknown"));
    var page := CitedPage(h.metadata);
    if page.Err? then Err(page.error)
    else if !id.Str? then Err(ChunkIdNotString)
    else Ok(Citation(id.s, page.value, Snippet(h.text, n), Relevance(h.distance)))
  }

  /** The citations in chunk order; the first chunk that raises ends the
      extraction with its error. */
  function CitationsOf(hits: seq<Hit>, n: nat): Result<seq<Citation>, CitationError>
    decreases |hits|
  {
    if hits == [] then Ok([])
    else
      match CitationOf(hits[0], n)
      case Err(e) => Err(e)
      case Ok(c) =>
        match CitationsOf(hits[1..], n)
        case Err(e) => Err(e)
        case Ok(rest) => Ok([c] + rest)
  }

  /** The extraction loop after `i` chunks: `acc` holds their citations and
      appending the rest gives the whole outcome. */
  ghost predicate CitationLoop(hits: seq<Hit>, n: nat, acc: seq<Citation>, i: nat) {
    && i <= |hits|
    && match CitationsOf(hits[i..], n)
       case Ok(rest) => CitationsOf(hits, n) == Ok(acc + rest)
       case Err(e) => CitationsOf(hits, n) == Err(e)
  }

  lemma CitationLoopInit(hits: seq<Hit>, n: nat)
    ensures CitationLoop(hits, n, [], 0)
  {
    assert hits[0..] == hits;
    match CitationsOf(hits, n)
    case Ok(rest) => assert [] + rest == rest;
    case Err(e) =>
  }

  lemma CitationLoopStep(hits: seq<Hit>, n: nat, acc: seq<Citation>, i: nat)
    requires CitationLoop(hits, n, acc, i) && i < |hits|
    ensures CitationOf(hits[i], n).Err? ==> CitationsOf(hits, n) == Err(CitationOf(hits[i], n).error)
    ensures CitationOf(hits[i], n).Ok? ==> CitationLoop(hits, n, acc + [CitationOf(hits[i], n).value], i + 1)
  {
    assert hits[i..][0] == hits[i] && hits[i..][1..] == hits[i + 1..];
    var c := CitationOf(hits[i], n);
    if c.Ok? {
      match CitationsOf(hits[i + 1..], n)
      case Ok(rest) =>
        assert acc + ([c.value] + rest) == (acc + [c.value]) + rest;
      case Err(e) =>
    }
  }

  /** `extract_citations`. */
  method ExtractCitations(hits: seq<Hit>, n: nat) returns (r: Result<seq<Citation>, CitationError>)
    ensures r == CitationsOf(hits, n)
  {
    var citations: seq<Citation> := [];
    CitationLoopInit(hits, n);
    for i := 0 to |hits|
      invariant CitationLoop(hits, n, citations, i)
    {
      CitationLoopStep(hits, n, citations, i);
      var c := CitationOf(hits[i], n);
      if c.Err? {
        return Err(c.error);
      }
      citations := citations + [c.value];
    }
    assert hits[|hits|..] == [] && citations + [] == citations;
    r := Ok(citations);
  }

  lemma {:induction false} CitationsOfLength(hits: seq<Hit>, n: nat)
    requires CitationsOf(hits, n).Ok?
    ensures |CitationsOf(hits, n).value| == |hits|
    decreases |hits|
  {
    if hits != [] {
      CitationsOfLength(hits[1..], n);
    }
  }

  lemma {:induction false} CitationsOfAt(hits: seq<Hit>, n: nat, i: nat)
    requires CitationsOf(hits, n).Ok? && i < |hits|
    ensures |CitationsOf(hits, n).value| == |hits|
    ensures CitationOf(hits[i], n) == Ok(CitationsOf(hits, n).value[i])
    decreases i
  {
    CitationsOfLength(hits, n);
    if i > 0 {
      CitationsOfAt(hits[1..], n, i - 1);
      assert hits[i] == hits[1..][i - 1];
    }
  }

  /** One citation per chunk, in order, each with the chunk's snippet and
      clamped relevance, and a page only when it is positive. */
  lemma CitationsOfSpec(hits: seq<Hit>, n: nat)
    requires CitationsOf(hits, n).Ok?
    ensures var cs := CitationsOf(hits, n).value;
      && |cs| == |hits|
      && forall i :: 0 <= i < |hits| ==> CitationOf(hits[i], n) == Ok(cs[i])
  {
    CitationsOfLength(hits, n);
    forall i | 0 <= i < |hits| ensures CitationOf(hits[i], n) == Ok(CitationsOf(hits, n).value[i]) {
      CitationsOfAt(hits, n, i);
    }
  }

  /** The extraction succeeds exactly when every chunk's citation can be
      built. */
  lemma {:induction false} CitationsOfOk(hits: seq<Hit>, n: nat)
    ensures CitationsOf(hits, n).Ok? <==> forall i :: 0 <= i < |hits| ==> CitationOf(hits[i], n).Ok?
    decreases |hits|
  {
    if hits != [] {
      CitationsOfOk(hits[1..], n);
      assert forall i :: 1 <= i < |hits| ==> hits[i] == hits[1..][i - 1];
    }
  }

  /** Chunks stored by `index_chunks` always yield citations: their chunk
      ids are strings and their page numbers integers. */
  lemma IndexedChunkCites(h: Hit, n: nat)
    requires "chunk_id" in h.metadata && h.metadata["chunk_id"].Str?
    requires "page_number" in h.metadata && h.metadata["page_number"].Int?
    ensures CitationOf(h, n).Ok?
    ensures CitationOf(h, n).value.chunkId == h.metadata["chunk_id"].s
    ensures CitationOf(h, n).value.pageNumber.Some? <==> h.metadata["page_number"].i > 0
  {
  }
}
