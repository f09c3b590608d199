/** The validated record types of the backend API (backend/app/models.py):
    literal-valued fields become datatypes, range-constrained integers
    become subset types, and Pydantic's validation of a raw request becomes
    a function returning a `Result`. */
module Models {
  import opened Wrappers

  /** The five document categories. */
  datatype DocType = DeviceDescription | Vnv | Biocompatibility | Regulatory | Other

  function DocTypeName(d: DocType): string {
    match d
    case DeviceDescription => "device_description"
    case Vnv => "vnv"
    case Biocompatibility => "biocompatibility"
    case Regulatory => "regulatory"
    case Other => "other"
  }

  /** The literal check: a string is a `DocType` iff it is one of the five names. */
  function ParseDocType(s: string): (r: Option<DocType>)
    ensures r.Some? ==> DocTypeName(r.value) == s
    ensures r.None? <==> forall d: DocType :: DocTypeName(d) != s
  {
    if s == "device_description" then Some(DeviceDescription)
    else if s == "vnv" then Some(Vnv)
    else if s == "biocompatibility" then Some(Biocompatibility)
    else if s == "regulatory" then Some(Regulatory)
    else if s == "other" then Some(Other)
    else None
  }

  lemma ParseDocTypeName(d: DocType)
    ensures ParseDocType(DocTypeName(d)) == Some(d)
  {
  }

  /** The gap severities. */
  datatype Severity = Low | Medium | High | Critical

  function SeverityName(s: Severity): string {
    match s
    case Low => "low"
    case Medium => "medium"
    case High => "high"
    case Critical => "critical"
  }

  /** The focus areas a gap report may be requested for. */
  datatype FocusArea = VAndV | Biocomp | Software | Risk | General

  function FocusAreaName(f: FocusArea): string {
    match f
    case VAndV => "V&V"
    case Biocomp => "Biocomp"
    case Software => "Software"
    case Risk => "Risk"
    case General => "General"
  }

  function ParseFocusArea(s: string): (r: Option<FocusArea>)
    ensures r.Some? ==> FocusAreaName(r.value) == s
    ensures r.None? <==> forall f: FocusArea :: FocusAreaName(f) != s
  {
    if s == "V&V" then Some(VAndV)
    else if s == "Biocomp" then Some(Biocomp)
    else if s == "Software" then Some(Software)
    else if s == "Risk" then Some(Risk)
    else if s == "General" then Some(General)
    else None
  }

  /** The `top_k` range shared by queries and gap reports. */
  type TopK = k: int | 1 <= k <= 20 witness 5

  const QueryTopKDefault: TopK := 5
  const GapReportTopKDefault: TopK := 8

  /** Validation of an optional `top_k`: absent gives the default,
      present must lie in [1, 20]. */
  function ValidateTopK(k: Option<int>, default: TopK): (r: Result<TopK, string>)
    ensures k.None? ==> r == Ok(default)
    ensures k.Some? ==> (r.Ok? <==> 1 <= k.value <= 20)
    ensures r.Ok? && k.Some? ==> r.value == k.value
  {
    match k
    case None => Ok(default)
    case Some(n) => if 1 <= n <= 20 then Ok(n) else Err("top_k must be between 1 and 20")
  }

  datatype QueryRequest = QueryRequest(
    query: string,
    docId: Option<string>,
    deviceName: Option<string>,
    docType: Option<DocType>,
    standard: Option<string>,
    topK: TopK)

  /** Builds a query request from raw fields, rejecting an unknown
      `doc_type` and an out-of-range `top_k`. */
  function NewQueryRequest(query: string, docId: Option<string>, deviceName: Option<string>,
                           docType: Option<string>, standard: Option<string>,
                           topK: Option<int>): (r: Result<QueryRequest, string>)
    ensures r.Ok? <==> ValidateTopK(topK, QueryTopKDefault).Ok?
                       && (docType.None? || ParseDocType(docType.value).Some?)
    ensures r.Ok? ==> r.value.query == query && r.value.docId == docId
                      && r.value.deviceName == deviceName && r.value.standard == standard
    ensures r.Ok? ==> (topK.None? ==> r.value.topK == 5)
    ensures r.Ok? ==> (r.value.docType.Some? <==> docType.Some?)
    ensures r.Ok? && docType.Some? && r.value.docType.Some? ==> DocTypeName(r.value.docType.value) == docType.value
  {
    match ValidateTopK(topK, QueryTopKDefault)
    case Err(e) => Err(e)
    case Ok(k) =>
      match docType
      case None => Ok(QueryRequest(query, docId, deviceName, None, standard, k))
      case Some(name) =>
        match ParseDocType(name)
        case None => Err("invalid doc_type")
        case Some(d) => Ok(QueryRequest(query, docId, deviceName, Some(d), standard, k))
  }

  datatype Citation = Citation(
    chunkId: string,
    pageNumber: Option<int>,
    snippet: string,
    relevanceScore: real)

  datatype VerificationResult = VerificationResult(
    sourceGrounded: bool,
    evidenceConfirmed: bool,
    needsHumanReview: bool,
    confidenceScore: real)

  /** A verification result with every field left at its default. */
  function DefaultVerification(): (v: VerificationResult)
    ensures v.sourceGrounded && v.evidenceConfirmed && !v.needsHumanReview
    ensures v.confidenceScore == 1.0
  {
    VerificationResult(true, true, false, 1.0)
  }

  /** One entry of the document listing. */
  datatype DocumentMetadata = DocumentMetadata(
    docId: string,
    filename: string,
    deviceName: Option<string>,
    docType: DocType,
    chunksIndexed: int,
    uploadedAt: string,
    standardsDetected: seq<string>)

  datatype ChunkMetadata = ChunkMetadata(
    docId: string,
    filename: string,
    chunkId: string,
    pageNumber: Option<int>,
    chunkIndex: int,
    deviceName: Option<string>,
    docType: DocType,
    standardsReferenced: seq<string>,
    sectionHeading: Option<string>,
    requirementIds: seq<string>,
    testCaseIds: seq<string>,
    riskIds: seq<string>)

  /** Chunk metadata with only the required fields given. */
  function NewChunkMetadata(docId: string, filename: string, chunkId: string, chunkIndex: int): (m: ChunkMetadata)
    ensures m.docId == docId && m.filename == filename && m.chunkId == chunkId && m.chunkIndex == chunkIndex
    ensures m.pageNumber == None && m.deviceName == None && m.sectionHeading == None
    ensures m.docType == Other
    ensures m.standardsReferenced == [] && m.requirementIds == [] && m.testCaseIds == [] && m.riskIds == []
  {
    ChunkMetadata(docId, filename, chunkId, None, chunkIndex, None, Other, [], None, [], [], [])
  }

  datatype Chunk = Chunk(text: string, metadata: ChunkMetadata)

  datatype GapReportRequest = GapReportRequest(
    deviceName: string,
    focusArea: FocusArea,
    docIds: seq<string>,
    topK: TopK)

  /** Builds a gap-report request from raw fields: the focus area must be
      one of the five names; `doc_ids` defaults to [] and `top_k` to 8. */
  function NewGapReportRequest(deviceName: string, focusArea: string,
                               docIds: Option<seq<string>>, topK: Option<int>): (r: Result<GapReportRequest, string>)
    ensures r.Ok? <==> ParseFocusArea(focusArea).Some? && ValidateTopK(topK, GapReportTopKDefault).Ok?
    ensures r.Ok? ==> FocusAreaName(r.value.focusArea) == focusArea && r.value.deviceName == deviceName
    ensures r.Ok? ==> r.value.docIds == (if docIds.Some? then docIds.value else [])
    ensures r.Ok? ==> (topK.None? ==> r.value.topK == 8)
  {
    match ParseFocusArea(focusArea)
    case None => Err("invalid focus_area")
    case Some(f) =>
      match ValidateTopK(topK, GapReportTopKDefault)
      case Err(e) => Err(e)
      case Ok(k) => Ok(GapReportRequest(deviceName, f, docIds.GetOr([]), k))
  }

  datatype GapItem = GapItem(
    gapTitle: string,
    missingRequirement: string,
    severity: Severity,
    fdaRequirementCitations: seq<Citation>,
    userEvidenceCitations: seq<Citation>,
    remediationSteps: seq<string>,
    estimatedTimeline: string,
    estimatedCost: string)

  const ToBeDetermined: string := "To be determined"

  /** A gap item with the optional fields left at their defaults. */
  function NewGapItem(title: string, missing: string, severity: Severity, steps: seq<string>): (g: GapItem)
    ensures g.gapTitle == title && g.missingRequirement == missing
    ensures g.severity == severity && g.remediationSteps == steps
    ensures g.fdaRequirementCitations == [] && g.userEvidenceCitations == []
    ensures g.estimatedTimeline == ToBeDetermined && g.estimatedCost == ToBeDetermined
  {
    GapItem(title, missing, severity, [], [], steps, ToBeDetermined, ToBeDetermined)
  }
}
