/** The validation and normalisation steps of the document endpoints in
    backend/app/routers/documents.py: the extension check, the doc_type
    fallback, the stored file name, the upload pipeline's error cases, and
    the delete endpoint's existence check. Saving and removing files is
    outside the model; what `parse_document` returns for the saved file is
    a parameter. */
module DocumentsRouter {
  import opened Wrappers
  import opened Strings
  import opened MetaValues
  import opened Config
  import opened Models
  import opened Parser
  import opened MetadataExtractor
  import opened StoreState
  import opened SimpleStore
  import Chunker
  import VectorStore

  // ---------------------------------------------------------------------
  // get_file_extension, validate_file_type
  // ---------------------------------------------------------------------

  const AllowedExtensions: set<string> := {".pdf", ".docx"}

  /** Some character of `p[lo..hi]` is not a dot. */
  predicate NonDotBetween(p: string, lo: int, hi: int)
    requires -1 <= lo && hi <= |p|
  {
    exists k :: lo < k < hi && p[k] != '.'
  }

  /** The extension part of `os.path.splitext` for '/'-separated paths:
      from the last dot of the last component, provided the component has a
      character other than a dot before it; otherwise empty. */
  function SplitExt(path: string): (ext: string)
    ensures |ext| <= |path|
    ensures ext != [] ==> ext[0] == '.' && ext == path[|path| - |ext|..]
    ensures ext != [] ==> forall j :: 1 <= j < |ext| ==> ext[j] != '.' && ext[j] != '/'
  {
    var sep := RFindChar(path, '/');
    var dot := RFindChar(path, '.');
    if dot > sep && NonDotBetween(path, sep, dot) then path[dot..] else []
  }

  /** A stem whose last component has a character other than a dot,
      followed by a dot and characters that are neither dots nor slashes,
      splits at that dot. */
  lemma SplitExtOf(stem: string, ext: string)
    requires |ext| >= 1 && ext[0] == '.'
    requires forall j :: 1 <= j < |ext| ==> ext[j] != '.' && ext[j] != '/'
    requires NonDotBetween(stem, RFindChar(stem, '/'), |stem|)
    ensures SplitExt(stem + ext) == ext
  {
    var path := stem + ext;
    var sep := RFindChar(stem, '/');
    ExtensionMarks(stem, ext);
    var k :| sep < k < |stem| && stem[k] != '.';
    assert path[k] == stem[k];
    assert NonDotBetween(path, sep, |stem|);
    assert path[|stem|..] == ext;
  }

  /** Appending an extension moves the last dot to its start and leaves
      the last slash where it was. */
  lemma ExtensionMarks(stem: string, ext: string)
    requires |ext| >= 1 && ext[0] == '.'
    requires forall j :: 1 <= j < |ext| ==> ext[j] != '.' && ext[j] != '/'
    ensures RFindChar(stem + ext, '.') == |stem|
    ensures RFindChar(stem + ext, '/') == RFindChar(stem, '/')
  {
    RFindCharUnique(ext, '.', 0);
    RFindCharAppend(stem, ext, '.');
    assert RFindChar(ext, '/') == -1 by {
      RFindCharUnique(ext, '/', -1);
    }
    RFindCharAppend(stem, ext, '/');
  }

  /** `get_file_extension`: the lower-cased extension. */
  function FileExtension(filename: string): (ext: string)
    ensures |ext| <= |filename|
    ensures ext == [] <==> SplitExt(filename) == []
    ensures ext != [] ==> ext[0] == '.'
  {
    Lower(SplitExt(filename))
  }

  /** `validate_file_type`. */
  predicate ValidateFileType(filename: string)
    ensures ValidateFileType(filename) ==> '.' in filename
  {
    FileExtension(filename) in AllowedExtensions
  }

  /** After a stem whose last component has something besides dots, a
      final extension is accepted exactly when it is ".pdf" or ".docx" in
      any case. */
  lemma ValidateFileTypeSpec(stem: string, ext: string)
    requires |ext| >= 1 && ext[0] == '.'
    requires forall j :: 1 <= j < |ext| ==> ext[j] != '.' && ext[j] != '/'
    requires NonDotBetween(stem, RFindChar(stem, '/'), |stem|)
    ensures ValidateFileType(stem + ext) <==> Lower(ext) in AllowedExtensions
  {
    SplitExtOf(stem, ext);
    assert FileExtension(stem + ext) == Lower(ext);
  }

  /** A name without a dot has no extension and is rejected. */
  lemma NoDotRejected(filename: string)
    requires '.' !in filename
    ensures SplitExt(filename) == [] && !ValidateFileType(filename)
  {
    assert RFindChar(filename, '.') == -1;
    assert |FileExtension(filename)| == 0;
  }

  // ---------------------------------------------------------------------
  // upload_document
  // ---------------------------------------------------------------------

  const ValidDocTypes: seq<string> := ["device_description", "vnv", "biocompatibility", "regulatory", "other"]

  /** A non-empty doc_type outside the five values becomes "other"; the
      empty string is left as it is. */
  function NormalizeDocType(docType: string): (r: string)
    ensures ParseDocType(docType).Some? ==> r == docType
    ensures docType != "" && ParseDocType(docType).None? ==> r == "other"
    ensures docType == "" ==> r == ""
    ensures ParseDocType(r) == if docType == "" then None
                               else if ParseDocType(docType).Some? then ParseDocType(docType)
                               else Some(Other)
  {
    if docType != "" && docType !in ValidDocTypes then "other" else docType
  }

  /** The name the upload is saved under. */
  function StoredName(docId: string, filename: string): (name: string)
    ensures |name| >= |docId| && name[..|docId|] == docId
  {
    docId + FileExtension(filename)
  }

  /** `os.path.join(directory, name)` for '/'-separated paths. */
  function JoinPath(directory: string, name: string): (p: string)
    ensures |p| >= |name|
    ensures |name| > 0 && name[0] != '/' ==>
      exists prefix :: p == prefix + name && (prefix == [] || prefix[|prefix| - 1] == '/')
  {
    if |name| > 0 && name[0] == '/' then name
    else if directory == [] || directory[|directory| - 1] == '/' then directory + name
    else
      assert directory + "/" + name == (directory + "/") + name;
      directory + "/" + name
  }

  datatype UploadError =
    | NoFilename
    | InvalidFileType
    | EmptyDocument
    | NoTextContent
    | ProcessingError

  /** The HTTP status each failure is reported with. */
  function Status(e: UploadError): (code: int)
    ensures code == 500 <==> e == ProcessingError
    ensures code == 400 <==> e != ProcessingError
  {
    if e == ProcessingError then 500 else 400
  }

  datatype UploadResponse = UploadResponse(
    success: bool,
    docId: string,
    filename: string,
    deviceName: Option<string>,
    docType: DocType,
    chunksIndexed: nat,
    standardsDetected: seq<string>)

  /** What is indexed when an upload gets that far. */
  datatype Upload = Upload(filename: string, docType: DocType, chunks: seq<Chunk>)

  /** The checks of `upload_document` in order, and the chunks it indexes. */
  function UploadOutcome(filename: Option<string>, deviceName: string, docType: string, docId: string,
                         s: Settings, parsed: Result<ParsedDocument, ParseError>): (r: Result<Upload, UploadError>)
    requires s.chunkSize >= 1
    ensures r.Ok? ==> filename == Some(r.value.filename) && ValidateFileType(r.value.filename)
  {
    if filename.None? || filename.value == "" then Err(NoFilename)
    else if !ValidateFileType(filename.value) then Err(InvalidFileType)
    else ParsedOutcome(filename.value, deviceName, docType, docId, s, parsed)
  }

  /** The checks of `upload_document` once the file name has passed. */
  function ParsedOutcome(name: string, deviceName: string, docType: string, docId: string,
                         s: Settings, parsed: Result<ParsedDocument, ParseError>): (r: Result<Upload, UploadError>)
    requires s.chunkSize >= 1
    ensures r.Err? ==> r.error != NoFilename && r.error != InvalidFileType
    ensures r.Ok? ==> r.value.filename == name
  {
    if parsed.Err? then Err(ProcessingError)
    else if parsed.value.pages == [] then Err(EmptyDocument)
    else if Chunker.Pieces(parsed.value.pages, s.chunkSize, s.chunkOverlap) == [] then Err(NoTextContent)
    else
      match ParseDocType(NormalizeDocType(docType))
      case None => Err(ProcessingError)
      case Some(t) =>
        Ok(Upload(name, t, Chunker.DocumentChunks(parsed.value, docId, Some(deviceName), t, s.chunkSize, s.chunkOverlap)))
  }

  /** `[{"standards_referenced": ...} for c in chunks]`. */
  function StandardsOf(chunks: seq<Chunk>): (metas: seq<Metadata>)
    ensures |metas| == |chunks|
  {
    seq(|chunks|, i requires 0 <= i < |chunks| => map[StandardsKey := StrList(chunks[i].metadata.standardsReferenced)])
  }

  /** The standards reported are the sorted union of those the chunks list. */
  lemma StandardsDetected(chunks: seq<Chunk>)
    ensures forall x :: x in AggregateStandards(StandardsOf(chunks)) <==>
      exists i :: 0 <= i < |chunks| && x in chunks[i].metadata.standardsReferenced
  {
    var metas := StandardsOf(chunks);
    forall x ensures x in AggregateStandards(metas) <==>
      exists i :: 0 <= i < |chunks| && x in chunks[i].metadata.standardsReferenced
    {
      if exists i :: 0 <= i < |chunks| && x in chunks[i].metadata.standardsReferenced {
        var i :| 0 <= i < |chunks| && x in chunks[i].metadata.standardsReferenced;
        assert StandardsKey in metas[i] && metas[i][StandardsKey].StrList? && x in metas[i][StandardsKey].items;
      }
    }
  }

  /** `upload_document` once the file has been saved and parsed: every
      failure leaves the store as it was; a success indexes the chunks of
      the parsed document and reports how many there were. */
  method UploadDocument(store: SimpleVectorStore, filename: Option<string>, deviceName: string, docType: string,
                        docId: string, s: Settings, parsed: Result<ParsedDocument, ParseError>,
                        uploadedAt: string, embed: string -> Embedding)
    returns (r: Result<UploadResponse, UploadError>)
    requires store.Valid() && s.chunkSize >= 1
    modifies store
    ensures store.Valid()
    ensures var outcome := UploadOutcome(filename, deviceName, docType, docId, s, parsed);
      && (outcome.Err? ==> r == Err(outcome.error) && unchanged(store))
      && (outcome.Ok? ==>
            var u := outcome.value;
            && r == Ok(UploadResponse(true, docId, u.filename, Some(deviceName), u.docType, |u.chunks|,
                                      AggregateStandards(StandardsOf(u.chunks))))
            && store.order == AddOrder(old(store.order), VectorStore.ChunkIds(u.chunks))
            && store.documents == Assign(old(store.documents), VectorStore.ChunkIds(u.chunks),
                                         VectorStore.ChunkTexts(u.chunks))
            && store.embeddings == Assign(old(store.embeddings), VectorStore.ChunkIds(u.chunks),
                                          VectorStore.Embeds(VectorStore.ChunkTexts(u.chunks), embed))
            && store.metadatas == Assign(old(store.metadatas), VectorStore.ChunkIds(u.chunks),
                                         VectorStore.IndexMetadatas(u.chunks, Some(deviceName), DocTypeName(u.docType), uploadedAt)))
  {
    if filename.None? || filename.value == "" {
      return Err(NoFilename);
    }
    var name := filename.value;
    if !ValidateFileType(name) {
      return Err(InvalidFileType);
    }
    var normalized := NormalizeDocType(docType);
    if parsed.Err? {
      return Err(ProcessingError);
    }
    var doc := parsed.value;
    if doc.pages == [] {
      return Err(EmptyDocument);
    }
    if Chunker.Pieces(doc.pages, s.chunkSize, s.chunkOverlap) == [] {
      return Err(NoTextContent);
    }
    var t := ParseDocType(normalized);
    if t.None? {
      return Err(ProcessingError);
    }
    var chunks := Chunker.ChunkDocument(doc, docId, Some(deviceName), t.value, s.chunkSize, s.chunkOverlap);
    var standards := AggregateStandards(StandardsOf(chunks));
    var n := VectorStore.IndexChunks(store, chunks, docId, name, Some(deviceName), DocTypeName(t.value), uploadedAt, embed);
    r := Ok(UploadResponse(true, docId, name, Some(deviceName), t.value, n, standards));
  }

  /** A missing or empty file name is rejected before anything else is
      looked at. */
  lemma MissingFilenameFirst(filename: Option<string>, deviceName: string, docType: string, docId: string,
                             s: Settings, parsed: Result<ParsedDocument, ParseError>)
    requires s.chunkSize >= 1
    ensures UploadOutcome(filename, deviceName, docType, docId, s, parsed) == Err(NoFilename)
            <==> filename.None? || filename.value == ""
  {
  }

  /** A named file is rejected for its type exactly when its extension is
      not allowed, whatever the document holds. */
  lemma InvalidTypeRejected(name: string, deviceName: string, docType: string, docId: string,
                            s: Settings, parsed: Result<ParsedDocument, ParseError>)
    requires s.chunkSize >= 1 && name != ""
    ensures UploadOutcome(Some(name), deviceName, docType, docId, s, parsed) == Err(InvalidFileType)
            <==> !ValidateFileType(name)
  {
  }

  /** A parse with no pages, or pages that yield no chunk, is a 400. */
  lemma EmptyUploadsRejected(name: string, deviceName: string, docType: string, docId: string,
                             s: Settings, doc: ParsedDocument)
    requires s.chunkSize >= 1 && name != "" && ValidateFileType(name)
    ensures doc.pages == [] ==> UploadOutcome(Some(name), deviceName, docType, docId, s, Ok(doc)) == Err(EmptyDocument)
    ensures doc.pages != [] && Chunker.DocumentChunks(doc, docId, Some(deviceName), Other, s.chunkSize, s.chunkOverlap) == []
            ==> UploadOutcome(Some(name), deviceName, docType, docId, s, Ok(doc)) == Err(NoTextContent)
    ensures UploadOutcome(Some(name), deviceName, docType, docId, s, Ok(doc)) == Err(NoTextContent) ==>
            Status(NoTextContent) == 400
  {
    Chunker.DocumentChunksCount(doc, docId, Some(deviceName), Other, s.chunkSize, s.chunkOverlap);
  }

  /** A successful upload had an allowed extension, a document with pages,
      at least one chunk, and a doc_type that is the submitted one when
      valid and "other" otherwise. */
  lemma UploadSucceeded(filename: Option<string>, deviceName: string, docType: string, docId: string,
                        s: Settings, parsed: Result<ParsedDocument, ParseError>)
    requires s.chunkSize >= 1
    requires UploadOutcome(filename, deviceName, docType, docId, s, parsed).Ok?
    ensures var u := UploadOutcome(filename, deviceName, docType, docId, s, parsed).value;
      && filename == Some(u.filename) && ValidateFileType(u.filename)
      && parsed.Ok? && parsed.value.pages != []
      && |u.chunks| >= 1
      && (ParseDocType(docType).Some? ==> u.docType == ParseDocType(docType).value)
      && (ParseDocType(docType).None? ==> u.docType == Other)
  {
    var doc := parsed.value;
    var u := UploadOutcome(filename, deviceName, docType, docId, s, parsed).value;
    assert ParseDocType(NormalizeDocType(docType)) == Some(u.docType);
    Chunker.DocumentChunksCount(doc, docId, Some(deviceName), u.docType, s.chunkSize, s.chunkOverlap);
  }

  /** In a document id without dots followed by an allowed extension, the
      last dot is the extension's. */
  lemma LastDotOfStoredName(docId: string, ext: string)
    requires ext in AllowedExtensions && '.' !in docId
    ensures RFind(docId + ext, ".", 0, |docId + ext|) == |docId|
  {
    var name := docId + ext;
    var i := RFind(name, ".", 0, |name|);
    RFindSpec(name, ".", 0, |name|);
    assert name[|docId|..|docId| + 1] == ".";
    assert OccursAt(name, ".", |docId|);
    forall j: nat | |docId| < j && j + 1 <= |name| ensures !OccursAt(name, ".", j) {
      assert name[j..j + 1] == [ext[j - |docId|]];
    }
  }

  /** Lower-casing twice changes nothing more. */
  lemma LowerIdempotent(s: string)
    ensures Lower(Lower(s)) == Lower(s)
  {
  }

  /** The saved file's path ends in its stored name after a '/'. */
  lemma StoredPathName(directory: string, docId: string, filename: string)
    requires docId != [] && '/' !in docId
    ensures PathName(JoinPath(directory, StoredName(docId, filename))) == StoredName(docId, filename)
  {
    var name := StoredName(docId, filename);
    assert name[0] == docId[0];
    var prefix :| JoinPath(directory, name) == prefix + name && (prefix == [] || prefix[|prefix| - 1] == '/');
    var ext := SplitExt(filename);
    assert '/' !in Lower(ext) by {
      forall j | 0 <= j < |ext| ensures LowerChar(ext[j]) != '/' {
        if j == 0 { assert ext[0] == '.'; }
      }
    }
    PathNameAfter(prefix, name);
  }

  /** The saved file keeps the lower-cased extension after the document id,
      so a document id without dots or slashes makes the parser pick the
      format the extension names. */
  lemma StoredNameFormat(directory: string, docId: string, filename: string)
    requires ValidateFileType(filename)
    requires docId != [] && '.' !in docId && '/' !in docId
    ensures FormatFor(JoinPath(directory, StoredName(docId, filename)))
            == if FileExtension(filename) == ".pdf" then Ok(Pdf) else Ok(Docx)
  {
    var ext := FileExtension(filename);
    var path := JoinPath(directory, StoredName(docId, filename));
    StoredPathName(directory, docId, filename);
    StoredSuffix(path, docId, ext);
    LowerIdempotent(SplitExt(filename));
    assert Lower(PathSuffix(path)) == ext;
    assert ext == ".pdf" || ext == ".docx";
  }

  /** `Path.suffix` of the saved file is the extension. */
  lemma StoredSuffix(path: string, docId: string, ext: string)
    requires ext in AllowedExtensions && docId != [] && '.' !in docId
    requires PathName(path) == docId + ext
    ensures PathSuffix(path) == ext
  {
    LastDotOfStoredName(docId, ext);
    assert (docId + ext)[|docId|..] == ext;
  }

  /** The name of a path that ends in a non-empty `name` after a '/' (or
      that is `name`) is `name`. */
  lemma PathNameAfter(prefix: string, name: string)
    requires '/' !in name && name != []
    requires prefix == [] || prefix[|prefix| - 1] == '/'
    ensures PathName(prefix + name) == name
  {
    var p := prefix + name;
    assert p[|p| - 1] == name[|name| - 1];
    RFindCharAppend(prefix, name, '/');
    assert p[|prefix|..] == name;
  }

  // ---------------------------------------------------------------------
  // get_documents, delete_document_endpoint
  // ---------------------------------------------------------------------

  /** `get_documents`: the stored documents and their number. */
  method GetDocuments(store: SimpleVectorStore) returns (documents: seq<DocumentMetadata>, totalCount: nat)
    requires store.Valid()
    ensures documents == VectorStore.ListDocumentsOf(store.order, store.documents, store.metadatas)
    ensures totalCount == |documents|
  {
    documents := VectorStore.ListDocuments(store);
    totalCount := |documents|;
  }

  datatype DeleteResponse = DeleteResponse(success: bool, docId: string, message: string, chunksDeleted: nat)

  datatype DeleteError = NotFound(docId: string)

  /** `delete_document_endpoint`: an unknown document is reported as not
      found and nothing is deleted; otherwise its chunks are removed and
      their number reported. */
  method DeleteDocumentEndpoint(store: SimpleVectorStore, docId: string) returns (r: Result<DeleteResponse, DeleteError>)
    requires store.Valid()
    modifies store
    ensures store.Valid()
    ensures VectorStore.DocChunks(old(store.metadatas), docId) == {} <==> r == Err(NotFound(docId))
    ensures r.Err? ==> unchanged(store)
    ensures r.Ok? ==>
      && r.value == DeleteResponse(true, docId, "Document deleted successfully",
                                   |VectorStore.DocChunks(old(store.metadatas), docId)|)
      && r.value.chunksDeleted >= 1
      && VectorStore.DocChunks(store.metadatas, docId) == {}
      && store.metadatas == old(store.metadatas) - VectorStore.DocChunks(old(store.metadatas), docId)
      && store.documents == old(store.documents) - VectorStore.DocChunks(old(store.metadatas), docId)
      && store.embeddings == old(store.embeddings) - VectorStore.DocChunks(old(store.metadatas), docId)
      && store.order == Without(old(store.order), VectorStore.DocChunks(old(store.metadatas), docId))
  {
    var found := VectorStore.DocumentExists(store, docId);
    if !found {
      assert VectorStore.DocChunks(store.metadatas, docId) == {};
      return Err(NotFound(docId));
    }
    ghost var id :| id in store.metadatas && VectorStore.MatchesFilter(store.metadatas[id], VectorStore.DocFilter(docId));
    assert id in VectorStore.DocChunks(store.metadatas, docId);
    var n := VectorStore.DeleteDocument(store, docId);
    r := Ok(DeleteResponse(true, docId, "Document deleted successfully", n));
  }
}
