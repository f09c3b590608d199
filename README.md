# TraceBridge AI — a Dafny model of the ingestion and evidence pipeline

TraceBridge AI helps medical-device teams check a submission against FDA
expectations. A user uploads PDF or DOCX documents. The backend parses
them into pages and cuts the pages into overlapping chunks. It tags each
chunk with the standards, requirement, test-case and risk ids and the
section heading it mentions, and indexes the chunks in an in-memory vector
store. Questions are answered from the nearest chunks, with numbered
sources and citations. A gap analysis walks a fixed catalog of FDA
requirements and reports, by severity, every requirement the documents
give no close evidence for.

This project models that core in Dafny, one module per source file:

- `Chunker` (backend/app/services/chunker.py) and `LegacyChunker`
  (app/services/chunker.py): the chunking loop with its break-point
  priority, overlap and progress guard, and the per-document loops. The
  older chunker's progress guard raises once a chunk exists, which the
  model returns as an error (see Findings).
- `SimpleStore` and `StoreState`: the `SimpleVectorStore` class of
  backend/app/services/vector_store.py, with its insertion-ordered ids and
  three id-keyed maps, specified by functions on those values. `Sorting`
  is the stable sort both trees rely on.
- `VectorStore` (the backend module functions: metadata filter, indexing,
  counting, listing, deleting and querying by document) and
  `LegacyVectorStore` (app/services/vector_store.py, with its own filter
  and the `_document_metadata` registry as a class).
- `GapAnalysis`, `Llm` (the grounded-answer helpers that do not call a
  model), `MetadataExtractor`, `Parser` (app/services/parser.py),
  `DocumentsRouter` (the checks of the upload and delete endpoints),
  `Models` (the validated records) and `Config`.
- `Strings`, `MetaValues` and `Wrappers` are helpers: Python's `strip`,
  `lower`, `find`, `rfind` and string order; the metadata value type with
  `dict.get`; and `Option`/`Result`.

Embeddings, the distance between two embeddings, model completions and
the PDF and DOCX libraries are parameters of the model (uninterpreted
function values or parsed values passed in).

## Model

| member | source | states |
|---|---|---|
| Chunker.BreakEnd | backend/app/services/chunker.py:47-67 | the end of the window chosen at `start` lies strictly after `start` and at most `chunk_size` characters later |
| Chunker.BreakAtEnd | backend/app/services/chunker.py:48-51 | when the window reaches the end of the text no boundary is searched: the window ends at `start + chunk_size` |
| Chunker.BreakEndCut | backend/app/services/chunker.py:50-67 | the cut is chosen in priority order: a paragraph break past the half-way mark, else the first separator with a sentence break, else a space past `start`, else the raw window end |
| Chunker.LastParagraph | backend/app/services/chunker.py:53-54 | when a paragraph break lies past the half-way mark, `rfind` returns the LAST such break of the window |
| Chunker.NoParagraphBreak | backend/app/services/chunker.py:53-54 | when no paragraph break lies past the half-way mark, the paragraph branch is not taken |
| Chunker.LastSeparator | backend/app/services/chunker.py:59-60 | a separator occurring in the upper half of the window is found, and the occurrence found is the last one |
| Chunker.SentenceBreakBounds | backend/app/services/chunker.py:57-61 | a sentence break, when found, lies strictly after `start` and inside the window |
| Chunker.SentenceBreakSkips | backend/app/services/chunker.py:57-62 | separators that do not occur in the window are skipped without changing the outcome |
| Chunker.FirstSeparatorChosen | backend/app/services/chunker.py:57-62 | the separator used is the FIRST of `. `, `.\n`, `! `, `!\n`, `? `, `?\n` that occurs, and the cut falls just after its last occurrence |
| Chunker.NoSentenceBreak | backend/app/services/chunker.py:57-63 | when no separator occurs the loop falls through to the `else` (word break) |
| Chunker.BreakAtParagraph | backend/app/services/chunker.py:53-55 | with a paragraph break in range, the window ends two characters after the last such break |
| Chunker.BreakAtSentence | backend/app/services/chunker.py:56-62 | with no paragraph break, the window ends just after the last occurrence of the first separator that occurs |
| Chunker.BreakAtSpace | backend/app/services/chunker.py:63-67 | with no paragraph or sentence break, the window ends one past the last space of the upper half |
| Chunker.BreakRaw | backend/app/services/chunker.py:48-67 | with no break of any kind, the window is cut at exactly `start + chunk_size` |
| Chunker.BreakPoint | backend/app/services/chunker.py:47-67 | the imperative boundary search (including the `for … else`) returns exactly the specified window end |
| Chunker.FirstSentenceBreak | backend/app/services/chunker.py:57-62 | the `for` loop over the separators returns exactly the specified sentence break (or none) |
| Chunker.NextStart | backend/app/services/chunker.py:75-81 | the next start is `end - chunk_overlap`, or `end` when that would not advance, so the loop always makes progress |
| Chunker.ChunkText | backend/app/services/chunker.py:17-83 | the `while` loop returns exactly the specified chunk list (blank text gives none, short text one stripped chunk) |
| Chunker.ChunkTextShortCases | backend/app/services/chunker.py:33-41 | blank or empty text gives `[]`; text whose stripped form fits gives `[text.strip()]` |
| Chunker.WindowIsGood | backend/app/services/chunker.py:69-72 | a non-empty stripped window is a good chunk: non-empty, stripped, a substring of the text and at most `chunk_size` long |
| Chunker.ChunksFromGood | backend/app/services/chunker.py:46-83 | every chunk the loop appends is a good chunk of the stripped text |
| Chunker.ChunkTextGood | backend/app/services/chunker.py:17-83 | every chunk of `chunk_text` is non-empty, stripped, a substring of the stripped text and no longer than `chunk_size` |
| Chunker.AppendPageChunks | backend/app/services/chunker.py:123-149 | the inner loop appends one chunk per text, numbered on from the chunks already made |
| Chunker.ChunkPages | backend/app/services/chunker.py:109-149 | the page loop skips blank pages and yields one chunk per piece of every other page, numbered from 0 |
| Chunker.ChunkDocument | backend/app/services/chunker.py:86-156 | `chunk_document` returns exactly the specified chunk list, with metadata from `extract_all_metadata` |
| Chunker.ChunksOfLength | backend/app/services/chunker.py:123-149 | one chunk is made per text piece |
| Chunker.ChunksOfNumbered | backend/app/services/chunker.py:124-149 | the i-th chunk is built from the i-th piece and carries the running index `first + i` |
| Chunker.PiecesFromPages | backend/app/services/chunker.py:112-121 | every piece comes from a non-blank page: its text is a chunk of that page and it carries that page's number |
| Chunker.DocumentChunksCount | backend/app/services/chunker.py:109-149 | a document yields as many chunks as its non-blank pages yield text pieces |
| Chunker.DocumentChunksFaithful | backend/app/services/chunker.py:124-146 | chunk i has index i, id `{doc_id}_chunk_{i}`, the document's id, filename, device and type, and exactly the metadata extracted from its own text |
| Chunker.DocumentChunksFromPages | backend/app/services/chunker.py:112-135 | the text of every chunk is a good chunk of some non-blank page, and the chunk carries that page's number |
| Config.DefaultSettings | backend/app/config.py:14-26 | the defaults have no API key, chunk size 500 and overlap 50, so the overlap is below the chunk size |
| Config.UseOpenAiEmbeddings | backend/app/config.py:41-48 | OpenAI is used only with a key that is not the placeholder and is longer than 10 characters, and always with such a key |
| Config.DefaultsAreOffline | backend/app/config.py:14-48 | the default settings run offline |
| Config.PlaceholderPassesLengthTest | backend/app/config.py:44-48 | the placeholder key is longer than 10 characters, so only the explicit placeholder test keeps it offline |
| LegacyChunker.ChunkText | app/services/chunker.py:16-80 | the `while` loop returns the specified outcome: the backend's chunks when the text is blank or fits, the `TypeError` of line 77 otherwise |
| LegacyChunker.FirstWindowNotBlank | app/services/chunker.py:68-77 | the first window of a non-empty stripped text is non-empty, so `chunks` is non-empty when line 77 first runs |
| LegacyChunker.ChunkTextOutcomeAgrees | app/services/chunker.py:32-80 | the function succeeds exactly when the text is blank or its stripped form fits one chunk, and then agrees with the backend chunker |
| LegacyChunker.LongTextRaises | app/services/chunker.py:77 | on "ab" with chunk size 1 the comparison of an int with a str raises |
| LegacyChunker.BackendChunksAb | backend/app/services/chunker.py:74-81 | the corrected loop chunks "ab" with chunk size 1 into "a" and "b" |
| LegacyChunker.ChunkPagesByPage | app/services/chunker.py:140-192 | the page loop returns the specified outcome: chunks numbered across pages, or the first page's error |
| LegacyChunker.ChunkDocument | app/services/chunker.py:83-137 | `chunk_document` is the page loop over the document's pages with the document's filename |
| LegacyChunker.AppendTextChunks | app/services/chunker.py:115-130 | the inner loop appends one chunk per text, with id `{doc_id}_chunk_{i}`, the page number and the running index |
| LegacyChunker.PageChunksLength | app/services/chunker.py:115-130 | one chunk is made per text |
| LegacyChunker.NonBlankPages | app/services/chunker.py:104-106 | the pages kept are pages of the document and are not blank |
| LegacyChunker.PagesOutcomeErrIff | app/services/chunker.py:77-113 | chunking a document fails exactly when some non-blank page's stripped text is longer than the chunk size, and the error is the `TypeError` |
| LegacyChunker.OnePageChunk | app/services/chunker.py:115-127 | a page whose stripped text fits gives one chunk holding that stripped text |
| LegacyChunker.PagesOutcomeFits | app/services/chunker.py:104-130 | a fitting first page contributes its one chunk ahead of the rest |
| LegacyChunker.PagesOutcomeOnePerPage | app/services/chunker.py:101-137 | when chunking succeeds there is exactly one chunk per non-blank page, the i-th holding that page's stripped text, number and index |
| LegacyVectorStore.FiltersAgree | app/services/vector_store.py:77 | on metadata that holds every filtered key as a non-list value, the older `metadata.get(k) == v` filter agrees with the backend's `_matches_filter` |
| LegacyVectorStore.FiltersDiffer | app/services/vector_store.py:77 | the two filters differ: the older one lets a missing key match `None`, and does not look inside list values |
| LegacyVectorStore.DocumentRegistry.constructor | app/services/vector_store.py:154 | the document registry starts empty |
| LegacyVectorStore.LoadDocumentMetadata | app/services/vector_store.py:172-188 | the loop over the stored metadatas leaves the registry as the specified load: first chunk per doc id wins, `"unknown"` and the current time as defaults |
| LegacyVectorStore.LoadFromKeeps | app/services/vector_store.py:182 | documents already registered keep their entries |
| LegacyVectorStore.LoadFromRegisters | app/services/vector_store.py:180-186 | once the load completes, every truthy doc id among the stored metadatas is registered |
| LegacyVectorStore.LegacyPrepareRows | app/services/vector_store.py:199-215 | the preparation loop builds the ids, texts and six-key metadatas of the chunks, in order (`-1` for a missing page) |
| LegacyVectorStore.IndexChunks | app/services/vector_store.py:191-237 | indexing returns the number of chunks, changes nothing for none, else adds every chunk to the store and registers the document's filename and upload time |
| LegacyVectorStore.LegacyIndexedChunkStored | app/services/vector_store.py:205-227 | after indexing, the last chunk with a given id is stored under that id with that chunk's metadata |
| LegacyVectorStore.LegacyDocFilterSpec | app/services/vector_store.py:245 | the `{"doc_id": doc_id}` filter keeps exactly the metadatas whose doc id is that string |
| LegacyVectorStore.LegacySelectedDocChunks | app/services/vector_store.py:245-246 | the ids the store returns for the filter are exactly the document's chunks, each once |
| LegacyVectorStore.GetDocumentChunkCount | app/services/vector_store.py:240-249 | the count is the number of stored chunks of the document |
| LegacyVectorStore.DocumentExists | app/services/vector_store.py:359-361 | a document exists exactly when some stored chunk carries its doc id |
| LegacyVectorStore.DeleteChunks | app/services/vector_store.py:301-307 | deleting removes exactly the document's chunks from all four parts of the store and returns their number |
| LegacyVectorStore.DeleteDocument | app/services/vector_store.py:295-315 | deleting returns the chunk count; nothing changes when it is 0; otherwise the chunks go and the registry entry is removed |
| LegacyVectorStore.FormatAll | app/services/vector_store.py:345-356 | the formatting loop produces exactly one hit per returned id, with its text, metadata and distance |
| LegacyVectorStore.QueryChunks | app/services/vector_store.py:322-356 | the query returns the specified hits for the embedded query text and the optional doc-id filter |
| LegacyVectorStore.LegacyQueryChunksLength | app/services/vector_store.py:337-342 | at most `top_k` hits come back |
| LegacyVectorStore.LegacyQueryChunksMembers | app/services/vector_store.py:337-354 | every hit is a stored chunk that passes the doc-id filter, with its stored text and metadata |
| LegacyVectorStore.LegacyQueryChunksSorted | app/services/vector_store.py:337-342 | hits come back in order of increasing distance |
| LegacyVectorStore.LegacyToRecord | app/services/vector_store.py:278-284 | a listing record exists exactly when the doc id, filename and upload time are strings, and carries that id and the chunk count |
| LegacyVectorStore.LegacyBuildRecords | app/services/vector_store.py:278-284 | the record loop builds the specified records, stopping at the first entry that cannot be converted |
| LegacyVectorStore.LegacyBuildFromMembers | app/services/vector_store.py:278-284 | every record comes from one grouped doc id |
| LegacyVectorStore.LegacyBuildFromAll | app/services/vector_store.py:278-284 | when the loop completes there is one record per grouped doc id, in order |
| LegacyVectorStore.LegacyLaterIsStrictWeakOrder | app/services/vector_store.py:287 | "later upload first" is a strict weak order, so the sort is well defined |
| LegacyVectorStore.ListDocuments | app/services/vector_store.py:252-292 | the listing is the specified one: the records sorted latest first; when a record fails validation the handler returns the records built before it, unsorted |
| LegacyVectorStore.LegacyListDocumentsCounts | app/services/vector_store.py:266-282 | each record's `chunks_indexed` is the number of stored chunks of that document |
| LegacyVectorStore.LegacyListDocumentsSorted | app/services/vector_store.py:287 | the listing is sorted by upload time, latest first |
| LegacyVectorStore.LegacyListedIdsStored | app/services/vector_store.py:266-284 | every listed document has a non-empty id and at least one stored chunk |
| LegacyVectorStore.LegacyStoredIdsListed | app/services/vector_store.py:266-284 | every document with a non-empty id and a stored chunk is listed |
| LegacyVectorStore.LegacyListDocumentsComplete | app/services/vector_store.py:252-292 | a document is listed exactly when its id is non-empty and it has a stored chunk |
| Llm.SourceBlocks | backend/app/services/llm.py:66-75 | one source block per chunk |
| Llm.FormatSources | backend/app/services/llm.py:61-77 | the loop builds the specified prompt text: `"No sources available."` for no chunks, else the numbered blocks joined by the separator |
| Llm.FormatSourcesCites | backend/app/services/llm.py:67-77 | the prompt text contains the block `[Source k] (File: …, Page: …)` followed by the text of every chunk k |
| Llm.FormatSourcesEmpty | backend/app/services/llm.py:63-64 | the prompt text is `"No sources available."` exactly when there are no chunks |
| Llm.Excerpts | backend/app/services/llm.py:168 | the fallback quotes at most the first three chunks |
| Llm.FallbackAnswer | backend/app/services/llm.py:154-177 | the loop builds the specified extractive answer, and the fallback flag is set only for no chunks |
| Llm.FallbackAnswerQuotes | backend/app/services/llm.py:166-177 | each of the first three chunks is quoted in the answer, cut to its first 300 characters, and the flag is false |
| Llm.FallbackAnswerParts | backend/app/services/llm.py:166-177 | the answer is the intro, the excerpts and the closing note joined by newlines |
| Llm.GroundedAnswerOffline | backend/app/services/llm.py:96-107 | no chunks give the canned answer with the flag set; without OpenAI the extractive answer comes back with the flag clear |
| Llm.GroundedAnswer | backend/app/services/llm.py:80-151 | no chunks give the canned answer flagged as a fallback; an answer is flagged only when there were no chunks or it names a fallback phrase |
| Llm.GroundedAnswerFlag | backend/app/services/llm.py:133-147 | when the model replies, the answer is its stripped reply and the flag is set exactly when the lowered answer contains one of the six fallback phrases |
| Llm.NotEnoughEvidenceNamesFallback | backend/app/services/llm.py:98-137 | the canned answer contains "not enough evidence", so it counts as a fallback |
| Llm.VerifyAnswerWithoutModel | backend/app/services/llm.py:196-212 | an answer mentioning "not enough evidence" is grounded with confidence 1.0 and no review; otherwise, offline, it needs review with confidence 0.7 |
| Llm.VerifyAnswer | backend/app/services/llm.py:180-273 | an answer saying "not enough evidence" verifies with full confidence; offline, any other answer needs human review |
| Llm.VerifyAnswerUnusableReply | backend/app/services/llm.py:244-273 | a failed model call gives confidence 0.5; a reply without `{`, or without a `}` after its first `{`, gives 0.7; both ask for human review |
| Llm.CannedAnswerVerified | backend/app/services/llm.py:197-203 | the canned no-sources answer always verifies as grounded with full confidence |
| Llm.Snippet | backend/app/services/llm.py:298-300 | a text within the limit is kept whole; a longer one becomes its first n characters followed by `...` |
| Llm.Relevance | backend/app/services/llm.py:303 | relevance is `1 - distance` clamped to [0, 1] |
| Llm.CitedPage | backend/app/services/llm.py:307 | a page number is cited only when it is a positive int; a non-integer page number raises on the comparison |
| Llm.CitationOf | backend/app/services/llm.py:293-310 | a citation carries the chunk's snippet and its clamped relevance |
| Llm.ExtractCitations | backend/app/services/llm.py:276-312 | the loop returns the specified citations, or the error of the first chunk that raises |
| Llm.CitationsOfLength | backend/app/services/llm.py:292-312 | one citation per chunk |
| Llm.CitationsOfAt | backend/app/services/llm.py:292-310 | the i-th citation is the i-th chunk's citation |
| Llm.CitationsOfSpec | backend/app/services/llm.py:276-312 | one citation per chunk, in order, each built from its own chunk |
| Llm.CitationsOfOk | backend/app/services/llm.py:292-310 | the extraction succeeds exactly when every chunk's citation can be built |
| Llm.IndexedChunkCites | backend/app/services/llm.py:305-309 | a chunk stored by `index_chunks` always yields a citation with its chunk id, and with a page exactly when the page is positive |
| MetaValues.Get | backend/app/services/vector_store.py:73 | `dict.get`: a missing key reads as `None`, a present key as its value |
| MetadataExtractor.SkipSpaces | backend/app/services/metadata_extractor.py:15-21 | the `\s*` of a pattern consumes exactly the maximal run of whitespace |
| MetadataExtractor.DigitsEnd | backend/app/services/metadata_extractor.py:15-46 | `\d+` consumes exactly the maximal run of digits |
| MetadataExtractor.FoundNames | backend/app/services/metadata_extractor.py:67-69 | a standard's name is collected exactly when its pattern is found in the text |
| MetadataExtractor.DetectStandards | backend/app/services/metadata_extractor.py:51-71 | the result is strictly sorted (so free of duplicates) and holds exactly the standards the text references |
| MetadataExtractor.DottedEnd | backend/app/services/metadata_extractor.py:29-44 | `(?:\.\d+)*\b` ends greedily after digits at a word boundary, backtracking to an earlier dotted end when needed |
| MetadataExtractor.IdMatchAt | backend/app/services/metadata_extractor.py:29-46 | a match at a position starts at a word boundary with the prefix (any case) and ends after a digit at a word boundary |
| MetadataExtractor.FindAll | backend/app/services/metadata_extractor.py:90 | every match `re.findall` returns is an id token of the pattern occurring as a whole word in the text at or after where the search starts |
| MetadataExtractor.FindAllEmpty | backend/app/services/metadata_extractor.py:90 | `re.findall` returns nothing exactly when no match starts at or after where the search starts |
| MetadataExtractor.FindAllLeftmost | backend/app/services/metadata_extractor.py:90 | the leftmost match comes first, and the search resumes where it ends, so matches never overlap |
| MetadataExtractor.AllMatches | backend/app/services/metadata_extractor.py:89-91 | every collected match is an id token of one of the patterns, occurring as a whole word |
| MetadataExtractor.AllMatchesComplete | backend/app/services/metadata_extractor.py:89-91 | a string is collected exactly when `re.findall` of one of the patterns returns it |
| MetadataExtractor.UpperAll | backend/app/services/metadata_extractor.py:91 | every match is upper-cased, position by position |
| MetadataExtractor.DetectIds | backend/app/services/metadata_extractor.py:74-137 | the ids are strictly sorted, at most 10, all drawn from the upper-cased matches, and any match left out sorts after all ten kept ones |
| MetadataExtractor.DetectIdsFindsFirstMatch | backend/app/services/metadata_extractor.py:87-93 | the first match of any pattern is reported upper-cased, unless ten smaller ids fill the list |
| MetadataExtractor.DetectRequirementIds | backend/app/services/metadata_extractor.py:74-93 | the requirement ids are strictly sorted, at most 10, and none for empty text |
| MetadataExtractor.DetectTestCaseIds | backend/app/services/metadata_extractor.py:96-115 | the test-case ids are strictly sorted, at most 10, and none for empty text |
| MetadataExtractor.DetectRiskIds | backend/app/services/metadata_extractor.py:118-137 | the risk ids are strictly sorted, at most 10, and none for empty text |
| MetadataExtractor.NothingInEmptyText | backend/app/services/metadata_extractor.py:84-85 | empty text has no id matches |
| MetadataExtractor.PrefixOfSorted | backend/app/services/metadata_extractor.py:93 | `sorted(...)[:10]` keeps a sorted list and drops only the largest elements |
| MetadataExtractor.FirstLineOf | backend/app/services/metadata_extractor.py:154-155 | the first line is the part of the text before its first newline |
| MetadataExtractor.DottedNumberEnd | backend/app/services/metadata_extractor.py:161 | the `(?:\.\d+)*` of a numbered heading stops after digits |
| MetadataExtractor.DetectSectionHeading | backend/app/services/metadata_extractor.py:140-170 | a heading is found exactly when the stripped first line is shorter than 100 and matches one of the three heading patterns, and it is that line cut to 80 characters |
| MetadataExtractor.FirstLineKeepsStart | backend/app/services/metadata_extractor.py:154-155 | the stripped first line of stripped text is a newline-free prefix of it |
| MetadataExtractor.HeadingCandidateChars | backend/app/services/metadata_extractor.py:155-168 | the candidate heading is at most 80 characters and no longer than the stripped text |
| MetadataExtractor.CandidateAtStartOfText | backend/app/services/metadata_extractor.py:154-168 | the candidate heading occurs in the text where its leading whitespace ends |
| MetadataExtractor.CandidateHasNoLineBreak | backend/app/services/metadata_extractor.py:154-155 | the candidate heading holds no newline |
| MetadataExtractor.HeadingIsStartOfText | backend/app/services/metadata_extractor.py:150-168 | a detected heading is non-empty, at most 80 characters, free of newlines and the start of the text after its leading whitespace |
| MetadataExtractor.EmptyTextYieldsNothing | backend/app/services/metadata_extractor.py:173-189 | `extract_all_metadata("")` finds no standards, no ids and no heading |
| MetadataExtractor.ExtractAllMetadata | backend/app/services/metadata_extractor.py:173-189 | the five detectors run on the same text: the standards strictly sorted, each id list strictly sorted with at most 10 entries |
| MetadataExtractor.ConcatStandards | backend/app/services/metadata_extractor.py:204-207 | a standard is collected exactly when some chunk's metadata lists it |
| MetadataExtractor.AggregateStandards | backend/app/services/metadata_extractor.py:192-209 | the aggregate is strictly sorted and holds exactly the standards listed in some chunk's `standards_referenced` list |
| Models.ParseDocType | backend/app/models.py:15 | a name is accepted exactly when it is one of the five document types, and then names that type |
| Models.ParseDocTypeName | backend/app/models.py:15 | every document type's name parses back to that type |
| Models.ParseFocusArea | backend/app/models.py:124 | a focus area is accepted exactly when it is one of `V&V`, `Biocomp`, `Software`, `Risk`, `General`, and then names that area |
| Models.ValidateTopK | backend/app/models.py:88 | `top_k` defaults when absent and is accepted exactly when it lies in [1, 20] |
| Models.NewQueryRequest | backend/app/models.py:81-88 | a query request validates exactly when `top_k` is in range and the doc type is absent or valid; the fields are kept and `top_k` defaults to 5 |
| Models.DefaultVerification | backend/app/models.py:99-104 | the default verification is grounded, confirmed, needs no review and has confidence 1.0 |
| Models.NewChunkMetadata | backend/app/models.py:54-68 | chunk metadata keeps its required fields; the optional ones default to none, `"other"` and empty lists |
| Models.NewGapReportRequest | backend/app/models.py:121-126 | a gap-report request validates exactly when the focus area is known and `top_k` is in range; `doc_ids` defaults to `[]` and `top_k` to 8 |
| Models.NewGapItem | backend/app/models.py:129-138 | a gap item keeps its title, requirement, severity and steps; citations default to empty and timeline and cost to "To be determined" |
| Parser.NonBlankTextsShape | app/services/parser.py:37-39 | the texts joined into the full text are exactly the non-blank page texts |
| Parser.NonSpaceSurvives | app/services/parser.py:37-39 | a text containing a non-blank piece is not blank |
| Parser.JoinOfBlanksIsBlank | app/services/parser.py:39 | joining blank parts with a blank separator gives blank text |
| Parser.FullText | app/services/parser.py:37-39 | the full text contains every non-blank page, and is blank exactly when every page is |
| Parser.PageCount | app/services/parser.py:42-43 | the page count is the number of pages |
| Parser.PdfPagesFaithful | app/services/parser.py:65-76 | every PDF page kept is numbered within the document, holds the stripped text of that page, and that text is not empty |
| Parser.PdfPagesNumberedAfter | app/services/parser.py:65-76 | pages from position i on carry numbers above i |
| Parser.PdfPagesOrdered | app/services/parser.py:65-76 | the kept pages' numbers strictly increase |
| Parser.PdfPagesComplete | app/services/parser.py:65-76 | every non-blank PDF page is kept, stripped and 1-indexed |
| Parser.ParsePdf | app/services/parser.py:46-86 | a missing file raises `FileNotFoundError`, a failed extraction a `ValueError`; otherwise the document holds the file's name and the kept pages |
| Parser.StrippedNonBlankShape | app/services/parser.py:111-114 | the paragraphs kept are non-empty and stripped, and none are kept exactly when all are blank |
| Parser.KeepStripped | app/services/parser.py:111-114 | the paragraph loop keeps exactly the stripped non-blank paragraphs |
| Parser.AppendRowLines | app/services/parser.py:118-125 | the row loop appends one line per row, its non-blank cells joined by a spaced vertical bar, for each row with a non-blank cell |
| Parser.AppendTableLines | app/services/parser.py:117-125 | the table loop appends the row lines of every table in order |
| Parser.RowLinesShape | app/services/parser.py:118-125 | row lines are never blank, and there are none exactly when every cell is blank |
| Parser.TableLinesNonBlank | app/services/parser.py:117-125 | table lines are never blank |
| Parser.TableLinesEmpty | app/services/parser.py:117-125 | there are no table lines exactly when every cell of every table is blank |
| Parser.ParseDocx | app/services/parser.py:89-142 | a missing file or a failed read raises; otherwise the document has one unnumbered page holding the joined text, or none when that text is blank |
| Parser.DocxHasPageIff | app/services/parser.py:111-134 | a DOCX document has its page exactly when some paragraph or table cell is not blank |
| Parser.PathName | app/services/parser.py:86 | `path.name` has no `/`; for a path not ending in `/` it is the suffix after the last `/` (or the whole path), as pathlib's name is |
| Parser.PathNameTrailingSlash | app/services/parser.py:86 | a trailing `/` does not change the name, as pathlib drops it |
| Parser.PathSuffix | app/services/parser.py:159 | `path.suffix` is empty or a dot followed by at least one non-dot character, ending the file name and shorter than it |
| Parser.NameSuffix | app/services/parser.py:159 | the suffix of a file name is empty or its last dot and what follows, never the whole name and never a lone dot |
| Parser.FormatFor | app/services/parser.py:159-168 | `.pdf` (any case) selects the PDF parser, `.docx` and `.doc` the DOCX parser, and anything else raises naming the lowered suffix |
| Parser.ParseDocument | app/services/parser.py:145-168 | an unsupported suffix fails before the file is looked at; otherwise the outcome is the selected parser's: not found, the library's failure, or the document with the file's name and its PDF pages or its single DOCX page (none when blank) |
| SimpleStore.SimpleVectorStore.constructor | backend/app/services/vector_store.py:23-28 | a new store holds no ids, documents, embeddings or metadatas, and is consistent |
| SimpleStore.SimpleVectorStore.Add | backend/app/services/vector_store.py:58-65 | every id gets its document, embedding and metadata (a repeated id keeps its last values and its first position); other entries are unchanged |
| SimpleStore.SimpleVectorStore.Get | backend/app/services/vector_store.py:85-104 | the ids whose metadata passes the filter, in insertion order, with their documents and metadatas when requested; an empty list reads as `None` |
| SimpleStore.SimpleVectorStore.Candidates | backend/app/services/vector_store.py:115-119 | the candidate loop collects exactly the ids the filter accepts, in insertion order |
| SimpleStore.SimpleVectorStore.Query | backend/app/services/vector_store.py:106-148 | no embeddings or no candidates give four empty lists; otherwise the candidates sorted by distance (stable), cut to `n_results` |
| SimpleStore.SimpleVectorStore.Delete | backend/app/services/vector_store.py:150-163 | exactly the ids the filter accepts are removed from all four parts of the store, and their number is returned |
| SimpleStore.ScoreAll | backend/app/services/vector_store.py:125-130 | the distance loop pairs every candidate with its distance from the query, in order |
| SimpleStore.CollectMatching | backend/app/services/vector_store.py:92-98 | the `get` loop collects the ids, documents and metadatas of the accepted entries |
| SimpleStore.DeleteLoopDone | backend/app/services/vector_store.py:157-160 | after the deletion loop each part of the store has lost exactly the ids collected, and the store stays consistent |
| SimpleStore.AddPresent | backend/app/services/vector_store.py:61-64 | re-adding a stored id keeps its place and the store consistent |
| SimpleStore.AddAbsent | backend/app/services/vector_store.py:61-64 | adding a new id appends it to the insertion order and keeps the store consistent |
| SimpleStore.DeleteKeepsConsistent | backend/app/services/vector_store.py:157-160 | removing a set of ids from every part keeps the store consistent |
| StoreState.AssignSpec | backend/app/services/vector_store.py:61-64 | after the assignment loop the keys are the old keys plus the ids, untouched keys keep their values and each id holds the value of its last occurrence |
| StoreState.AssignKeys | backend/app/services/vector_store.py:61-64 | the assigned map's keys are the old keys plus the ids |
| StoreState.AssignOthers | backend/app/services/vector_store.py:61-64 | keys not among the ids keep their values |
| StoreState.AssignLast | backend/app/services/vector_store.py:61-64 | an id holds the value given at its last occurrence |
| StoreState.AddOrderSpec | backend/app/services/vector_store.py:61-64 | the insertion order stays free of duplicates, gains exactly the new ids and keeps the old order as a prefix |
| StoreState.AddOrderDistinct | backend/app/services/vector_store.py:61-64 | the insertion order stays free of duplicates |
| StoreState.AddOrderElems | backend/app/services/vector_store.py:61-64 | the insertion order holds the old ids plus the added ones |
| StoreState.AddOrderKeepsOld | backend/app/services/vector_store.py:61-64 | existing ids keep their positions |
| StoreState.AddOneSpec | backend/app/services/vector_store.py:62 | adding one key keeps the order free of duplicates |
| StoreState.SelectedSpec | backend/app/services/vector_store.py:92-94 | an id is selected exactly when it is stored and its metadata passes the filter; the selection is no longer than the order and free of duplicates |
| StoreState.SelectedMembers | backend/app/services/vector_store.py:92-94 | an id is selected exactly when it is stored and passes the filter |
| StoreState.SelectedLength | backend/app/services/vector_store.py:92-94 | the selection is no longer than the insertion order |
| StoreState.SelectedDistinct | backend/app/services/vector_store.py:92-94 | the selection holds each id once |
| StoreState.WithoutSpec | backend/app/services/vector_store.py:157-160 | removing ids from the order leaves exactly the other ids, still free of duplicates |
| StoreState.WithoutNothing | backend/app/services/vector_store.py:157-160 | removing no ids leaves the order unchanged |
| StoreState.WithoutTwice | backend/app/services/vector_store.py:157-160 | removing ids one at a time is removing them all at once |
| StoreState.DocumentsOf | backend/app/services/vector_store.py:140 | one document per id, each the stored document of that id |
| StoreState.MetadatasOf | backend/app/services/vector_store.py:141 | one metadata per id, each the stored metadata of that id |
| StoreState.Scored | backend/app/services/vector_store.py:125-130 | one pair per candidate, holding the candidate and its distance from the query |
| StoreState.CloserIsStrictWeakOrder | backend/app/services/vector_store.py:133 | ordering by distance is a strict weak order, so the sort is well defined |
| StoreState.TakePy | backend/app/services/vector_store.py:136 | `xs[:n]` is a prefix of `xs` of length `min(n, len(xs))` for non-negative `n` |
| StoreState.ResultOf | backend/app/services/vector_store.py:138-148 | the four result lists have one entry per kept id |
| StoreState.QueryOf | backend/app/services/vector_store.py:106-148 | the query result is always well shaped |
| StoreState.RankedMembers | backend/app/services/vector_store.py:116-141 | every ranked pair is a stored candidate passing the filter, paired with its distance |
| StoreState.RankedSorted | backend/app/services/vector_store.py:133 | the ranked pairs come nearest first |
| StoreState.RankedStable | backend/app/services/vector_store.py:133-136 | pairs at equal distance keep their insertion order |
| StoreState.RankedLength | backend/app/services/vector_store.py:136 | the ranking holds `n_results` pairs, or all candidates when there are fewer |
| Sorting.Insert | backend/app/services/vector_store.py:133 | inserting adds exactly one element and keeps the rest |
| Sorting.SortBy | backend/app/services/vector_store.py:133 | sorting permutes its input |
| Sorting.InsertKeepsSorted | backend/app/services/vector_store.py:133 | insertion into a sorted list keeps it sorted |
| Sorting.SortBySorted | backend/app/services/vector_store.py:133 | the sort's output is sorted by the order |
| Sorting.TiesAppend | backend/app/services/vector_store.py:133 | the elements tied with a key in a concatenation are those of each part, in order |
| Sorting.InsertTies | backend/app/services/vector_store.py:133 | insertion places an element after those it ties with |
| Sorting.SortByStable | backend/app/services/vector_store.py:133 | the sort is stable: elements tied with any key keep their relative order |
| Strings.Strip | backend/app/services/chunker.py:33-37 | `str.strip()` removes exactly the leading and trailing whitespace: the result is a stripped slice of the input, empty exactly when the input is blank |
| Strings.StripKeeps | backend/app/services/chunker.py:37 | every non-space character lies inside the stripped slice |
| Strings.StripStripped | backend/app/services/chunker.py:37 | stripping stripped text changes nothing |
| Strings.RFindSpec | backend/app/services/chunker.py:53-65 | `rfind(sub, lo, hi)` returns -1 when `sub` does not occur within `[lo, hi)`, else the last position where it occurs |
| Strings.Lower | backend/app/routers/documents.py:43 | `lower()` maps each character to its lower-case form, keeping the length |
| Strings.Upper | backend/app/services/metadata_extractor.py:91 | `upper()` maps each character to its upper-case form, keeping the length |
| Strings.JoinContains | backend/app/services/llm.py:77 | a joined string contains each of its parts |
| Strings.NatToString | backend/app/services/chunker.py:124 | the decimal form of a number is a non-empty string of digits |
| Strings.StrLtIrreflexive | backend/app/services/metadata_extractor.py:71 | string order is irreflexive |
| Strings.StrLtTransitive | backend/app/services/metadata_extractor.py:71 | string order is transitive |
| Strings.StrLtTotal | backend/app/services/metadata_extractor.py:71 | distinct strings are ordered one way or the other |
| Strings.StrLtAsymmetric | backend/app/services/metadata_extractor.py:71 | string order is asymmetric |
| Strings.InsertSorted | backend/app/services/metadata_extractor.py:71 | inserting into a strictly sorted list keeps it strictly sorted and adds exactly the new element |
| Strings.SortedSet | backend/app/services/metadata_extractor.py:71 | `sorted(list(set))` is strictly sorted and holds exactly the input's elements |
| Strings.StrictlySortedUnique | backend/app/services/metadata_extractor.py:71 | two strictly sorted lists with the same elements are equal, so the sorted set is unique |
| Strings.Prefix | backend/app/services/llm.py:171 | `s[:n]` has length `min(n, len(s))` and is a prefix of `s` |
| Strings.Find | backend/app/services/llm.py:245 | `index` finds the first occurrence of a character; -1 stands for its absence |
| Strings.RFindChar | backend/app/routers/documents.py:43 | the last occurrence of a character, or -1 exactly when it does not occur |
| Strings.RFindCharAppend | backend/app/routers/documents.py:43 | the last occurrence in a concatenation is in the second part when it holds the character, else in the first |
| VectorStore.MatchesFilterAll | backend/app/services/vector_store.py:67-83 | a metadata passes a filter exactly when every filter entry matches |
| VectorStore.MissingKeyFails | backend/app/services/vector_store.py:70-71 | a filter key missing from the metadata makes the filter fail |
| VectorStore.MatchesFilterAppend | backend/app/services/vector_store.py:69-83 | passing a filter built from two parts is passing both parts |
| VectorStore.PageNumberValue | backend/app/services/vector_store.py:210 | a missing or zero page number is stored as -1 and any other page number as itself |
| VectorStore.FirstNonEmpty | backend/app/services/vector_store.py:214-217 | `a or b or ""` is the first non-empty of the two strings, and empty only when both are |
| VectorStore.IndexMetadataSpec | backend/app/services/vector_store.py:206-221 | every stored dictionary names its chunk's document and id, a page stored as -1 exactly for none or zero, the upload time, and a non-empty doc type that is the argument when one is given |
| VectorStore.PrepareRows | backend/app/services/vector_store.py:195-222 | the preparation loop builds the ids, texts and metadata dictionaries of the chunks, in order |
| VectorStore.IndexChunks | backend/app/services/vector_store.py:185-238 | indexing returns the number of chunks, changes nothing for none, and otherwise adds every chunk with its text, embedding and metadata |
| VectorStore.IndexedChunkStored | backend/app/services/vector_store.py:201-234 | after indexing, the last chunk with a given id is stored under it with that chunk's metadata |
| VectorStore.DistinctCard | backend/app/services/vector_store.py:247 | the number of distinct ids returned is their count |
| VectorStore.SelectedDocChunks | backend/app/services/vector_store.py:246-247 | the ids `get` returns for the doc-id filter are exactly the document's chunks, each once |
| VectorStore.GetDocumentChunkCount | backend/app/services/vector_store.py:241-250 | the count is the number of stored chunks whose metadata matches the doc-id filter |
| VectorStore.DocumentExists | backend/app/services/vector_store.py:384-386 | a document exists exactly when some stored chunk matches its doc-id filter |
| VectorStore.DeleteDocument | backend/app/services/vector_store.py:307-326 | deletion returns the chunk count; for 0 nothing changes; otherwise exactly the document's chunks leave every part of the store |
| VectorStore.WhereOfSpec | backend/app/services/vector_store.py:341-347 | the query filter requires each given (non-empty) doc id, device name and doc type, and nothing else |
| VectorStore.QueryKeepSpec | backend/app/services/vector_store.py:357 | an empty filter passed as `None` keeps the same chunks as the filter itself |
| VectorStore.FormatResults | backend/app/services/vector_store.py:362-381 | the formatting loop returns the specified hits, or the error a non-list standards value raises |
| VectorStore.FilterStandardNone | backend/app/services/vector_store.py:369 | without a standard every hit is kept |
| VectorStore.FilterStandardErr | backend/app/services/vector_store.py:369-371 | the standard filter raises exactly when a standard is given and some hit's standards value does not support `in` |
| VectorStore.FilterStandardMembers | backend/app/services/vector_store.py:369-379 | every hit kept is a returned hit that lists the standard when one is given |
| VectorStore.FilterStandardLength | backend/app/services/vector_store.py:369-372 | the standard filter never adds hits |
| VectorStore.FilterStandardSorted | backend/app/services/vector_store.py:362-379 | the standard filter keeps hits in distance order |
| VectorStore.QueryChunks | backend/app/services/vector_store.py:329-381 | `query_chunks` returns the specified hits for the embedded query, the field filter, `top_k` and the standard |
| VectorStore.QueryChunksLength | backend/app/services/vector_store.py:354-372 | at most `top_k` hits come back (the standard is filtered after the cut) |
| VectorStore.QueryChunksMembers | backend/app/services/vector_store.py:354-379 | every hit is a stored chunk passing the filter, with its stored text and metadata and listing the standard when one is given |
| VectorStore.QueryChunksSorted | backend/app/services/vector_store.py:354-379 | hits come back nearest first |
| VectorStore.GroupByDocument | backend/app/services/vector_store.py:265-284 | the grouping loop builds the specified groups (none when a doc id is a list and cannot be a key) |
| VectorStore.AddToGroupsStep | backend/app/services/vector_store.py:268-284 | a metadata with a truthy, hashable doc id is always grouped |
| VectorStore.GroupFromOk | backend/app/services/vector_store.py:267-284 | grouping keeps the groups well formed: each doc id appears once among the keys and has its info |
| VectorStore.GroupFromKeys | backend/app/services/vector_store.py:268-278 | a doc id is grouped exactly when it is truthy and some chunk carries it |
| VectorStore.GroupFromCounts | backend/app/services/vector_store.py:279 | a group's chunk count is the number of chunks carrying its doc id |
| VectorStore.ToRecord | backend/app/services/vector_store.py:287-296 | a record is built exactly when Pydantic accepts the fields (string id, filename, upload time, one of the five doc types, a string device name when truthy); it carries the id, chunk count, filename and upload time, a device name only when truthy, and the standards sorted without duplicates |
| VectorStore.BuildRecords | backend/app/services/vector_store.py:287-296 | the record loop builds the specified records, stopping at the first group that cannot be converted |
| VectorStore.BuildFromMembers | backend/app/services/vector_store.py:287-296 | every record comes from one group |
| VectorStore.BuildFromAll | backend/app/services/vector_store.py:287-296 | when the loop completes there is one record per group, in group order |
| VectorStore.LaterIsStrictWeakOrder | backend/app/services/vector_store.py:299 | "later upload first" is a strict weak order, so the sort is well defined |
| VectorStore.ListDocuments | backend/app/services/vector_store.py:253-304 | the listing is the specified one: the records sorted latest first; an error while grouping gives no records, and a record that fails validation ends the listing with the records built before it, unsorted |
| VectorStore.ListDocumentsCounts | backend/app/services/vector_store.py:267-293 | each record's `chunks_indexed` is the number of stored chunks of its document |
| VectorStore.ListDocumentsSorted | backend/app/services/vector_store.py:299 | the listing is sorted by upload time, latest first |
| VectorStore.ListingRecords | backend/app/services/vector_store.py:287-299 | the listing is a permutation of the records built from the groups |
| VectorStore.ListedIdsStored | backend/app/services/vector_store.py:267-296 | every listed document has a non-empty id and a stored chunk |
| VectorStore.StoredIdsListed | backend/app/services/vector_store.py:267-296 | every document with a non-empty id and a stored chunk is listed |
| VectorStore.ListDocumentsComplete | backend/app/services/vector_store.py:253-304 | a document is listed exactly when its id is non-empty and it has a stored chunk |
| GapAnalysis.CatalogAreaSpec | backend/app/services/gap_analysis.py:220 | a known focus area selects its own requirement catalog; any other name selects the General catalog |
| GapAnalysis.DetermineSeverity | backend/app/services/gap_analysis.py:145-153 | the severity is mentioned by the requirement or is the medium default, and no more severe level is mentioned |
| GapAnalysis.DetermineSeveritySpec | backend/app/services/gap_analysis.py:145-153 | the severity is the first of critical, high, medium, low whose keywords the lowered requirement mentions: it is mentioned, no more severe level is, and with no keyword at all the severity is medium |
| GapAnalysis.RemediationSteps | backend/app/services/gap_analysis.py:156-198 | every branch yields four steps |
| GapAnalysis.RemediationStepsPriority | backend/app/services/gap_analysis.py:162-196 | "test" wins over "traceability", over "risk", over "plan"/"documentation", over the generic steps, whose first step names the requirement; the severity does not matter |
| GapAnalysis.OfDocs | backend/app/services/gap_analysis.py:237-238 | the doc-id filter never adds chunks |
| GapAnalysis.OfDocsSpec | backend/app/services/gap_analysis.py:237-238 | a chunk survives the doc-id filter exactly when it was retrieved and its metadata's doc id is one of the requested ids |
| GapAnalysis.MoreSevereIsStrictWeakOrder | backend/app/services/gap_analysis.py:264-265 | ordering by severity rank is a strict weak order, so the sort is well defined |
| GapAnalysis.AreaGaps | backend/app/services/gap_analysis.py:225-261 | the requirement loop yields the specified gaps of one area, in order, or the error of the first citation that raises |
| GapAnalysis.ReportFrom | backend/app/services/gap_analysis.py:217-267 | the loop over the areas gathers every area's gaps and sorts them by severity |
| GapAnalysis.GenerateGapReport | backend/app/services/gap_analysis.py:201-267 | `generate_gap_report` is the report over the focus area's catalog |
| GapAnalysis.GapForSpec | backend/app/services/gap_analysis.py:227-261 | a requirement yields a gap exactly when its best evidence is missing or not closer than 0.5; the gap's title, area, severity, timeline, cost and four steps come from the rules, no FDA citations, and at most two user citations |
| GapAnalysis.RequirementGapsCount | backend/app/services/gap_analysis.py:225-261 | an area yields one gap per unsupported requirement, at most one per requirement |
| GapAnalysis.CatalogGapsCount | backend/app/services/gap_analysis.py:222-261 | the catalog yields one gap per unsupported requirement, at most as many as it has requirements |
| GapAnalysis.GapReportCount | backend/app/services/gap_analysis.py:201-267 | the report holds one gap per unsupported requirement, and never more gaps than requirements |
| GapAnalysis.GapReportSorted | backend/app/services/gap_analysis.py:264-265 | the report runs from critical to low |
| GapAnalysis.GapReportStable | backend/app/services/gap_analysis.py:264-265 | gaps of equal severity keep their catalog order |
| DocumentsRouter.SplitExt | backend/app/routers/documents.py:41-43 | `os.path.splitext` returns an extension that is empty or a dot-led suffix of the path with no further dot or slash |
| DocumentsRouter.SplitExtOf | backend/app/routers/documents.py:43 | a stem whose last component has a character other than a dot, followed by a dot and characters that are neither dots nor slashes, has exactly that extension |
| DocumentsRouter.FileExtension | backend/app/routers/documents.py:41-43 | the lowered extension is empty exactly when `splitext` finds none, and otherwise starts with a dot |
| DocumentsRouter.ValidateFileType | backend/app/routers/documents.py:46-48 | an accepted file name contains a dot |
| DocumentsRouter.ValidateFileTypeSpec | backend/app/routers/documents.py:38-48 | a file name is accepted exactly when its extension, lowered, is `.pdf` or `.docx` |
| DocumentsRouter.NoDotRejected | backend/app/routers/documents.py:41-48 | a file name without a dot has no extension and is rejected |
| DocumentsRouter.NormalizeDocType | backend/app/routers/documents.py:86-88 | a valid doc type is kept, any other non-empty one becomes "other", and the empty one stays empty (so validation later rejects it) |
| DocumentsRouter.JoinPath | backend/app/routers/documents.py:99 | `os.path.join(dir, name)` ends with `name` after a separator, or is `name` |
| DocumentsRouter.StoredName | backend/app/routers/documents.py:97-98 | the stored name starts with the document id |
| DocumentsRouter.Status | backend/app/routers/documents.py:76-173 | only the unexpected processing error maps to 500; every other rejection is a 400 |
| DocumentsRouter.ParsedOutcome | backend/app/routers/documents.py:101-131 | once the file name has passed, the upload can only fail as a processing error, an empty document or one without text, and an accepted upload keeps the submitted name |
| DocumentsRouter.UploadOutcome | backend/app/routers/documents.py:76-136 | an accepted upload had a name, and that name has an allowed extension |
| DocumentsRouter.StandardsOf | backend/app/routers/documents.py:134-136 | one standards dictionary per chunk |
| DocumentsRouter.StandardsDetected | backend/app/routers/documents.py:134-136 | the detected standards are exactly those some chunk references |
| DocumentsRouter.UploadDocument | backend/app/routers/documents.py:59-175 | a rejected upload returns its error and leaves the store alone; an accepted one indexes every chunk (order, texts, embeddings and metadatas) and returns the response with the document's id, name, device, type, chunk count and standards |
| DocumentsRouter.MissingFilenameFirst | backend/app/routers/documents.py:76-77 | the upload fails with "No filename provided" exactly when the name is missing or empty |
| DocumentsRouter.InvalidTypeRejected | backend/app/routers/documents.py:79-83 | a named upload fails with the invalid-type error exactly when its extension is not allowed |
| DocumentsRouter.EmptyUploadsRejected | backend/app/routers/documents.py:111-131 | a document with no pages fails as empty, one whose pages yield no chunks fails with no text content, and both are 400 |
| DocumentsRouter.UploadSucceeded | backend/app/routers/documents.py:76-160 | an accepted upload had a valid name and a parsed document with pages, yields at least one chunk and carries the requested type or "other" |
| DocumentsRouter.StoredPathName | backend/app/routers/documents.py:97-99 | the saved file's name is `{doc_id}{extension}` |
| DocumentsRouter.StoredNameFormat | backend/app/routers/documents.py:97-109 | the saved file is parsed by the PDF parser for a `.pdf` upload and by the DOCX parser for a `.docx` upload |
| DocumentsRouter.StoredSuffix | backend/app/routers/documents.py:97-98 | the saved file's suffix is the upload's lowered extension |
| DocumentsRouter.GetDocuments | backend/app/routers/documents.py:182-195 | the listing is `list_documents()` and `total_count` is its length |
| DocumentsRouter.DeleteDocumentEndpoint | backend/app/routers/documents.py:212-242 | an unknown document gives 404 and changes nothing; otherwise exactly its chunks leave the order, texts, embeddings and metadatas, and the response reports their (positive) number |

## Left out

- Persistence: the pickle `_load`/`_save` of both stores, `ensure_directories`, saving the uploaded file, cleaning it up and removing it on delete. They are side effects with no logic to prove.
- The OpenAI and sentence-transformers calls: backend/app/services/embeddings.py is not part of this model; embeddings are a function parameter `embed`, and the chat completions are parameters of the answer and verification functions. Decoding the verifier's JSON reply is left out.
- The numpy cosine distance with its `1e-8` epsilon: the distance is a function parameter returning a real. `round(relevance, 3)` is left out, and relevance is computed on reals.
- fitz and python-docx: their pages, paragraphs and tables are inputs of the parser model.
- The regular expressions are hand-coded recognisers for the fixed patterns, over ASCII; `lower()` and `upper()` are ASCII only.
- Path handling (`os.path.splitext`, `os.path.join`, `Path.name`, `Path.suffix`) is modelled for '/'-separated POSIX paths only.
- `uuid4` document ids and `datetime.utcnow()` timestamps are string parameters; `async` on `generate_gap_report` is ignored.
- The FastAPI wiring: backend/app/main.py, app/main.py, backend/app/routers/query.py and the HTTP status plumbing beyond the status codes `DocumentsRouter.Status` names. Logging is left out.
- The lazily created module singletons (`_get_vector_store`, `get_collection`, `_openai_client`): the model passes the store object explicitly.
- app/models.py holds record shapes only and is not part of this model beyond the field names it gives the older tree.
- DocumentsRouter.UploadDocument: takes the parse outcome as a parameter instead of saving and parsing the file itself; an empty `doc_type` reaches the record validation and becomes the processing error (500), as the Pydantic validation makes it.
- Chunker.ChunkText, LegacyChunker.ChunkText and DocumentsRouter.UploadDocument: require a chunk size of at least 1. With a size of 0 the source's loop does not advance, and the settings never hold 0.
- GapAnalysis.GenerateGapReport: retrieval is the function parameter `retrieve`, standing for `query_chunks` with `top_k=3`.
- Llm.ValueText: renders a list as `[` plus its items in single quotes, separated by `, `, plus `]`. This is Python's `repr` only for items without quotes or backslashes, because the model does not apply repr's quote choice or escaping.
- Parser.PathName: drops trailing separators as pathlib does, but does not collapse repeated `/` or `.` components inside the path.

## Findings

| source | as written | input that shows it | evidently intended | confidence | as-written member | corrected member |
|---|---|---|---|---|---|---|
| app/services/chunker.py:77 | the progress guard compares the integer `start` with the last chunk, a string, so it raises TypeError as soon as one chunk has been emitted from a text longer than the chunk size | "ab" with chunk size 1 | compare with the previous start, as backend/app/services/chunker.py:78-81 does | not executed | LegacyChunker.LongTextRaises | LegacyChunker.BackendChunksAb |
