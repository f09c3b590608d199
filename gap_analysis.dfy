/** The gap-analysis rules of backend/app/services/gap_analysis.py: the
    requirement catalogs, keyword-based severity, remediation steps, and
    the gap report. Retrieval is the parameter `retrieve`, standing for
    `query_chunks` with `top_k=3`: it takes the query text and the device
    filter and returns the hits. */
module GapAnalysis {
  import opened Wrappers
  import opened Strings
  import opened Sorting
  import opened MetaValues
  import opened Models
  import opened VectorStore
  import opened Llm

  // ---------------------------------------------------------------------
  // the catalogs
  // ---------------------------------------------------------------------

  /** One area of a catalog and its requirements. */
  datatype AreaGroup = AreaGroup(area: string, requirements: seq<string>)

  /** `FDA_REQUIREMENTS[focus_area]`. */
  function Catalog(f: FocusArea): seq<AreaGroup> {
    match f
    case VAndV => VAndVCatalog()
    case Biocomp => BiocompCatalog()
    case Software => SoftwareCatalog()
    case Risk => RiskCatalog()
    case General => GeneralCatalog()
  }

  function VAndVCatalog(): seq<AreaGroup> {
    [
      AreaGroup("Software Development", [
        "Evidence of software development lifecycle per IEC 62304",
        "Software verification test results with traceability to requirements",
        "Unit testing documentation with coverage metrics",
        "Integration testing documentation",
        "System testing documentation"]),
      AreaGroup("Requirements Traceability", [
        "Traceability matrix linking requirements to design to tests",
        "Verification that all requirements have associated tests",
        "Risk-based test coverage justification"]),
      AreaGroup("Risk Management", [
        "Risk management file per ISO 14971",
        "Hazard analysis documentation",
        "Risk control verification evidence",
        "Residual risk evaluation"])]
  }

  function BiocompCatalog(): seq<AreaGroup> {
    [
      AreaGroup("Biological Evaluation", [
        "Biological evaluation plan per ISO 10993-1",
        "Material characterization data",
        "Biocompatibility endpoint justification"]),
      AreaGroup("Testing", [
        "Cytotoxicity testing (ISO 10993-5)",
        "Sensitization testing (ISO 10993-10)",
        "Irritation testing (ISO 10993-10 or 23)",
        "Test reports with pass/fail conclusions"])]
  }

  function SoftwareCatalog(): seq<AreaGroup> {
    [
      AreaGroup("Software Documentation", [
        "Software Requirements Specification (SRS)",
        "Software Design Specification",
        "Software Development Plan",
        "Software level of concern determination"]),
      AreaGroup("Cybersecurity", [
        "Cybersecurity risk assessment",
        "Threat modeling documentation",
        "Security controls documentation",
        "Vulnerability testing results"])]
  }

  function RiskCatalog(): seq<AreaGroup> {
    [
      AreaGroup("Risk Management Process", [
        "Risk management plan",
        "Risk analysis (FMEA, FTA, or equivalent)",
        "Risk evaluation with severity/probability",
        "Risk control measures"]),
      AreaGroup("Risk Verification", [
        "Verification of risk control effectiveness",
        "Production and post-production monitoring plan",
        "Benefit-risk analysis"])]
  }

  function GeneralCatalog(): seq<AreaGroup> {
    [
      AreaGroup("Device Description", [
        "Intended use statement",
        "Device specifications",
        "Operating principles",
        "Predicate device comparison"])]
  }

  /** The focus area whose catalog is used: the named one, or "General"
      for a name that is not a focus area. */
  function CatalogArea(focusArea: string): FocusArea {
    match ParseFocusArea(focusArea)
    case Some(f) => f
    case None => General
  }

  /** `FDA_REQUIREMENTS.get(focus_area, FDA_REQUIREMENTS["General"])`. */
  function CatalogFor(focusArea: string): seq<AreaGroup> {
    Catalog(CatalogArea(focusArea))
  }

  /** A known focus area gets its own catalog; any other name the general one. */
  lemma CatalogAreaSpec(focusArea: string)
    ensures forall f: FocusArea :: FocusAreaName(f) == focusArea ==> CatalogArea(focusArea) == f
    ensures (forall f: FocusArea :: FocusAreaName(f) != focusArea) ==> CatalogArea(focusArea) == General
  {
    forall f: FocusArea | FocusAreaName(f) == focusArea
      ensures CatalogArea(focusArea) == f
    {
      var p := ParseFocusArea(focusArea);
      assert p.Some? && FocusAreaName(p.value) == focusArea;
      assert p.value == f;
    }
  }

  /** How many requirements a catalog lists. */
  function RequirementCount(groups: seq<AreaGroup>): nat
    decreases |groups|
  {
    if groups == [] then 0 else |groups[0].requirements| + RequirementCount(groups[1..])
  }

  // ---------------------------------------------------------------------
  // determine_severity
  // ---------------------------------------------------------------------

  /** `SEVERITY_MAPPING`: each tier's keywords. */
  function SeverityKeywords(s: Severity): seq<string> {
    match s
    case Critical => ["risk management", "safety", "harm", "hazard", "iso 14971"]
    case High => ["verification", "validation", "testing", "iec 62304", "traceability"]
    case Medium => ["documentation", "plan", "specification", "design"]
    case Low => ["format", "template", "labeling"]
  }

  /** `severity_order`: the rank the report is sorted by, most severe first;
      it is also the order in which the tiers are tried. */
  function Rank(s: Severity): nat {
    match s
    case Critical => 0
    case High => 1
    case Medium => 2
    case Low => 3
  }

  /** Some keyword of the tier occurs in the lowercased text. */
  predicate Mentions(lower: string, s: Severity) {
    exists i :: 0 <= i < |SeverityKeywords(s)| && Contains(lower, SeverityKeywords(s)[i])
  }

  /** `determine_severity`: the first tier, in rank order, with a keyword in
      the lowercased requirement; "medium" when none has. */
  function DetermineSeverity(requirement: string): (s: Severity)
    ensures Mentions(Lower(requirement), s) || s == Medium
    ensures forall t :: Rank(t) < Rank(s) ==> !Mentions(Lower(requirement), t)
  {
    var lower := Lower(requirement);
    if Mentions(lower, Critical) then Critical
    else if Mentions(lower, High) then High
    else if Mentions(lower, Medium) then Medium
    else if Mentions(lower, Low) then Low
    else Medium
  }

  /** The severity is the most severe tier the requirement mentions: one of
      its keywords occurs, and no tier of a smaller rank is mentioned; with
      no keyword at all it is "medium". */
  lemma DetermineSeveritySpec(requirement: string, t: Severity)
    ensures var s := DetermineSeverity(requirement);
      && (Mentions(Lower(requirement), t) ==> Rank(s) <= Rank(t) && Mentions(Lower(requirement), s))
      && (Rank(t) < Rank(s) ==> !Mentions(Lower(requirement), t))
      && ((forall u :: !Mentions(Lower(requirement), u)) ==> s == Medium)
  {
  }

  // ---------------------------------------------------------------------
  // generate_remediation_steps
  // ---------------------------------------------------------------------

  const TestSteps: seq<string> := [
    "Review existing test documentation", "Create or update test protocol",
    "Execute required tests", "Document results with pass/fail conclusions"]
  const TraceabilitySteps: seq<string> := [
    "Create requirements traceability matrix", "Link requirements to design elements",
    "Link design elements to verification activities", "Verify complete coverage"]
  const RiskSteps: seq<string> := [
    "Review risk management file", "Perform hazard analysis if missing",
    "Document risk controls", "Verify risk control effectiveness"]
  const DocumentSteps: seq<string> := [
    "Review FDA guidance for document requirements", "Create document outline",
    "Complete required sections", "Review and approve"]

  function GenericSteps(requirement: string): seq<string> {
    ["Review FDA requirements for: " + requirement, "Assess current documentation gaps",
     "Create or update required documentation", "Obtain appropriate review and approval"]
  }

  /** `generate_remediation_steps`; the severity is not used. */
  function RemediationSteps(requirement: string, severity: Severity): (steps: seq<string>)
    ensures |steps| == 4
  {
    var lower := Lower(requirement);
    if Contains(lower, "test") then TestSteps
    else if Contains(lower, "traceability") then TraceabilitySteps
    else if Contains(lower, "risk") then RiskSteps
    else if Contains(lower, "plan") || Contains(lower, "documentation") then DocumentSteps
    else GenericSteps(requirement)
  }

  /** The branches are tried in the order test, traceability, risk,
      plan or documentation; only a requirement none of them names gets
      the generic steps, which name it. */
  lemma RemediationStepsPriority(requirement: string, severity: Severity)
    ensures var lower := Lower(requirement);
      var steps := RemediationSteps(requirement, severity);
      && (Contains(lower, "test") ==> steps == TestSteps)
      && (!Contains(lower, "test") && Contains(lower, "traceability") ==> steps == TraceabilitySteps)
      && (!Contains(lower, "test") && !Contains(lower, "traceability") && Contains(lower, "risk") ==> steps == RiskSteps)
      && ((!Contains(lower, "test") && !Contains(lower, "traceability") && !Contains(lower, "risk")
           && (Contains(lower, "plan") || Contains(lower, "documentation"))) ==> steps == DocumentSteps)
      && ((!Contains(lower, "test") && !Contains(lower, "traceability") && !Contains(lower, "risk")
           && !Contains(lower, "plan") && !Contains(lower, "documentation")) ==>
            steps[0] == "Review FDA requirements for: " + requirement)
      && RemediationSteps(requirement, severity) == RemediationSteps(requirement, Low)
  {
  }

  // ---------------------------------------------------------------------
  // the tables
  // ---------------------------------------------------------------------

  /** `TIMELINE_ESTIMATES`. */
  function Timeline(s: Severity): string {
    match s
    case Critical => "2-4 weeks"
    case High => "1-2 weeks"
    case Medium => "3-5 days"
    case Low => "1-2 days"
  }

  /** `COST_ESTIMATES`. */
  function Cost(s: Severity): string {
    match s
    case Critical => "$5,000 - $15,000 (estimate)"
    case High => "$2,000 - $5,000 (estimate)"
    case Medium => "$500 - $2,000 (estimate)"
    case Low => "$200 - $500 (estimate)"
  }

  // ---------------------------------------------------------------------
  // generate_gap_report
  // ---------------------------------------------------------------------

  const EvidenceThreshold: real := 0.5
  const CitedChunks: nat := 2

  /** The query text for one requirement. */
  function SearchText(requirement: string, deviceName: string): string {
    requirement + " for " + deviceName
  }

  /** `device_name if device_name else None`. */
  function DeviceFilter(deviceName: string): Option<string> {
    if deviceName != "" then Some(deviceName) else None
  }

  /** `c.get("metadata", {}).get("doc_id") in doc_ids`. */
  predicate InDocs(h: Hit, docIds: seq<string>) {
    Get(h.metadata, "doc_id").Str? && Get(h.metadata, "doc_id").s in docIds
  }

  /** The chunks of the listed documents, in order. */
  function OfDocs(hits: seq<Hit>, docIds: seq<string>): (kept: seq<Hit>)
    ensures |kept| <= |hits|
    decreases |hits|
  {
    if hits == [] then []
    else (if InDocs(hits[0], docIds) then [hits[0]] else []) + OfDocs(hits[1..], docIds)
  }

  /** The doc-id filter, applied only when `doc_ids` is non-empty. */
  function FilterDocs(hits: seq<Hit>, docIds: seq<string>): seq<Hit> {
    if docIds == [] then hits else OfDocs(hits, docIds)
  }

  /** Exactly the chunks of the listed documents are kept, in order. */
  lemma {:induction false} OfDocsSpec(hits: seq<Hit>, docIds: seq<string>)
    ensures forall h :: h in OfDocs(hits, docIds) <==> h in hits && InDocs(h, docIds)
    decreases |hits|
  {
    if hits != [] {
      OfDocsSpec(hits[1..], docIds);
      assert hits == [hits[0]] + hits[1..];
    }
  }

  /** `len(chunks) > 0 and chunks[0].get("distance", 1) < 0.5`. */
  predicate HasEvidence(chunks: seq<Hit>) {
    |chunks| > 0 && chunks[0].distance < EvidenceThreshold
  }

  /** The chunks found for one requirement. */
  function Evidence(requirement: string, deviceName: string, docIds: seq<string>,
                    retrieve: (string, Option<string>) -> seq<Hit>): seq<Hit>
  {
    FilterDocs(retrieve(SearchText(requirement, deviceName), DeviceFilter(deviceName)), docIds)
  }

  /** The gap item for a requirement without evidence. */
  function GapItemFor(area: string, requirement: string, citations: seq<Citation>): (g: GapItem) {
    var severity := DetermineSeverity(requirement);
    GapItem("Missing: " + requirement, area + ": " + requirement, severity, [], citations,
            RemediationSteps(requirement, severity), Timeline(severity), Cost(severity))
  }

  /** The body of the inner loop: no gap when the first chunk is close
      enough, otherwise a gap citing at most the first two chunks; an error
      when a citation cannot be built. */
  function GapFor(area: string, requirement: string, deviceName: string, docIds: seq<string>,
                  retrieve: (string, Option<string>) -> seq<Hit>): Result<Option<GapItem>, CitationError>
  {
    var chunks := Evidence(requirement, deviceName, docIds, retrieve);
    if HasEvidence(chunks) then Ok(None)
    else
      var cited := if chunks != [] then CitationsOf(Prefix(chunks, CitedChunks), MaxSnippetLength) else Ok([]);
      match cited
      case Err(e) => Err(e)
      case Ok(cs) => Ok(Some(GapItemFor(area, requirement, cs)))
  }

  function Listed(g: Option<GapItem>): seq<GapItem> {
    if g.Some? then [g.value] else []
  }

  /** `acc` followed by the outcome `tail`; the first error wins. */
  function Then(acc: seq<GapItem>, tail: Result<seq<GapItem>, CitationError>): Result<seq<GapItem>, CitationError> {
    match tail
    case Ok(rest) => Ok(acc + rest)
    case Err(e) => Err(e)
  }

  /** The gaps of one area's requirements, in order. */
  function RequirementGaps(area: string, requirements: seq<string>, deviceName: string, docIds: seq<string>,
                           retrieve: (string, Option<string>) -> seq<Hit>): Result<seq<GapItem>, CitationError>
    decreases |requirements|
  {
    if requirements == [] then Ok([])
    else
      match GapFor(area, requirements[0], deviceName, docIds, retrieve)
      case Err(e) => Err(e)
      case Ok(g) => Then(Listed(g), RequirementGaps(area, requirements[1..], deviceName, docIds, retrieve))
  }

  /** The gaps of a catalog, area by area. */
  function CatalogGaps(groups: seq<AreaGroup>, deviceName: string, docIds: seq<string>,
                       retrieve: (string, Option<string>) -> seq<Hit>): Result<seq<GapItem>, CitationError>
    decreases |groups|
  {
    if groups == [] then Ok([])
    else
      match RequirementGaps(groups[0].area, groups[0].requirements, deviceName, docIds, retrieve)
      case Err(e) => Err(e)
      case Ok(gs) => Then(gs, CatalogGaps(groups[1..], deviceName, docIds, retrieve))
  }

  /** `gaps.sort(key=severity_order)`. */
  predicate MoreSevere(a: GapItem, b: GapItem) {
    Rank(a.severity) < Rank(b.severity)
  }

  lemma MoreSevereIsStrictWeakOrder()
    ensures StrictWeakOrder(MoreSevere)
  {
  }

  /** The gaps of a catalog sorted by severity, or the first error. */
  function GapReportFrom(groups: seq<AreaGroup>, deviceName: string, docIds: seq<string>,
                         retrieve: (string, Option<string>) -> seq<Hit>): Result<seq<GapItem>, CitationError>
  {
    match CatalogGaps(groups, deviceName, docIds, retrieve)
    case Err(e) => Err(e)
    case Ok(gaps) => Ok(SortBy(gaps, MoreSevere))
  }

  /** What `generate_gap_report` returns, or the error it raises. */
  function GapReportOf(deviceName: string, focusArea: string, docIds: seq<string>,
                       retrieve: (string, Option<string>) -> seq<Hit>): Result<seq<GapItem>, CitationError>
  {
    GapReportFrom(CatalogFor(focusArea), deviceName, docIds, retrieve)
  }

  // ---------------------------------------------------------------------
  // the loops
  // ---------------------------------------------------------------------

  /** After `i` requirements: `acc` holds their gaps, and it followed by the
      outcome for the rest is the whole outcome. */
  ghost predicate RequirementLoop(area: string, requirements: seq<string>, deviceName: string, docIds: seq<string>,
                                  retrieve: (string, Option<string>) -> seq<Hit>, acc: seq<GapItem>, i: nat)
  {
    i <= |requirements|
    && Then(acc, RequirementGaps(area, requirements[i..], deviceName, docIds, retrieve))
       == RequirementGaps(area, requirements, deviceName, docIds, retrieve)
  }

  lemma RequirementLoopInit(area: string, requirements: seq<string>, deviceName: string, docIds: seq<string>,
                            retrieve: (string, Option<string>) -> seq<Hit>)
    ensures RequirementLoop(area, requirements, deviceName, docIds, retrieve, [], 0)
  {
    assert requirements[0..] == requirements;
    match RequirementGaps(area, requirements, deviceName, docIds, retrieve) {
      case Ok(all) => assert [] + all == all;
      case Err(e) =>
    }
  }

  lemma RequirementLoopStep(area: string, requirements: seq<string>, deviceName: string, docIds: seq<string>,
                            retrieve: (string, Option<string>) -> seq<Hit>, acc: seq<GapItem>, i: nat)
    requires RequirementLoop(area, requirements, deviceName, docIds, retrieve, acc, i) && i < |requirements|
    ensures var g := GapFor(area, requirements[i], deviceName, docIds, retrieve);
      && (g.Err? ==> RequirementGaps(area, requirements, deviceName, docIds, retrieve) == Err(g.error))
      && (g.Ok? ==> RequirementLoop(area, requirements, deviceName, docIds, retrieve, acc + Listed(g.value), i + 1))
  {
    assert requirements[i..][0] == requirements[i] && requirements[i..][1..] == requirements[i + 1..];
    var g := GapFor(area, requirements[i], deviceName, docIds, retrieve);
    if g.Ok? {
      match RequirementGaps(area, requirements[i + 1..], deviceName, docIds, retrieve) {
        case Ok(rest) => assert acc + (Listed(g.value) + rest) == (acc + Listed(g.value)) + rest;
        case Err(e) =>
      }
    }
  }

  /** The inner loop of `generate_gap_report`: the gaps of one area. */
  method AreaGaps(group: AreaGroup, deviceName: string, docIds: seq<string>,
                  retrieve: (string, Option<string>) -> seq<Hit>) returns (r: Result<seq<GapItem>, CitationError>)
    ensures r == RequirementGaps(group.area, group.requirements, deviceName, docIds, retrieve)
  {
    var reqs := group.requirements;
    var gaps: seq<GapItem> := [];
    RequirementLoopInit(group.area, reqs, deviceName, docIds, retrieve);
    for i := 0 to |reqs|
      invariant RequirementLoop(group.area, reqs, deviceName, docIds, retrieve, gaps, i)
    {
      RequirementLoopStep(group.area, reqs, deviceName, docIds, retrieve, gaps, i);
      var chunks := Evidence(reqs[i], deviceName, docIds, retrieve);
      var hasEvidence := |chunks| > 0 && chunks[0].distance < EvidenceThreshold;
      if !hasEvidence {
        var cited := if chunks != [] then CitationsOf(Prefix(chunks, CitedChunks), MaxSnippetLength) else Ok([]);
        if cited.Err? {
          return Err(cited.error);
        }
        gaps := gaps + [GapItemFor(group.area, reqs[i], cited.value)];
      } else {
        assert gaps + [] == gaps;
      }
    }
    assert reqs[|reqs|..] == [] && gaps + [] == gaps;
    r := Ok(gaps);
  }

  ghost predicate CatalogLoop(groups: seq<AreaGroup>, deviceName: string, docIds: seq<string>,
                              retrieve: (string, Option<string>) -> seq<Hit>, acc: seq<GapItem>, i: nat)
  {
    i <= |groups|
    && Then(acc, CatalogGaps(groups[i..], deviceName, docIds, retrieve)) == CatalogGaps(groups, deviceName, docIds, retrieve)
  }

  lemma CatalogLoopInit(groups: seq<AreaGroup>, deviceName: string, docIds: seq<string>,
                        retrieve: (string, Option<string>) -> seq<Hit>)
    ensures CatalogLoop(groups, deviceName, docIds, retrieve, [], 0)
  {
    assert groups[0..] == groups;
    match CatalogGaps(groups, deviceName, docIds, retrieve) {
      case Ok(all) => assert [] + all == all;
      case Err(e) =>
    }
  }

  lemma CatalogLoopStep(groups: seq<AreaGroup>, deviceName: string, docIds: seq<string>,
                        retrieve: (string, Option<string>) -> seq<Hit>, acc: seq<GapItem>, i: nat)
    requires CatalogLoop(groups, deviceName, docIds, retrieve, acc, i) && i < |groups|
    ensures var r := RequirementGaps(groups[i].area, groups[i].requirements, deviceName, docIds, retrieve);
      && (r.Err? ==> CatalogGaps(groups, deviceName, docIds, retrieve) == Err(r.error))
      && (r.Ok? ==> CatalogLoop(groups, deviceName, docIds, retrieve, acc + r.value, i + 1))
  {
    assert groups[i..][0] == groups[i] && groups[i..][1..] == groups[i + 1..];
    var r := RequirementGaps(groups[i].area, groups[i].requirements, deviceName, docIds, retrieve);
    if r.Ok? {
      match CatalogGaps(groups[i + 1..], deviceName, docIds, retrieve) {
        case Ok(rest) => assert acc + (r.value + rest) == (acc + r.value) + rest;
        case Err(e) =>
      }
    }
  }

  /** The loops of `generate_gap_report` over a catalog: the gaps, area by
      area, then sorted by severity. */
  method ReportFrom(groups: seq<AreaGroup>, deviceName: string, docIds: seq<string>,
                    retrieve: (string, Option<string>) -> seq<Hit>)
    returns (r: Result<seq<GapItem>, CitationError>)
    ensures r == GapReportFrom(groups, deviceName, docIds, retrieve)
  {
    var gaps: seq<GapItem> := [];
    CatalogLoopInit(groups, deviceName, docIds, retrieve);
    for i := 0 to |groups|
      invariant CatalogLoop(groups, deviceName, docIds, retrieve, gaps, i)
    {
      CatalogLoopStep(groups, deviceName, docIds, retrieve, gaps, i);
      var areaGaps := AreaGaps(groups[i], deviceName, docIds, retrieve);
      if areaGaps.Err? {
        return Err(areaGaps.error);
      }
      gaps := gaps + areaGaps.value;
    }
    assert groups[|groups|..] == [] && gaps + [] == gaps;
    r := Ok(SortBy(gaps, MoreSevere));
  }

  /** `generate_gap_report`: every requirement of the focus area's catalog
      without close enough evidence becomes a gap; the gaps are then
      sorted by severity, keeping catalog order within a severity. */
  method GenerateGapReport(deviceName: string, focusArea: string, docIds: seq<string>,
                           retrieve: (string, Option<string>) -> seq<Hit>)
    returns (r: Result<seq<GapItem>, CitationError>)
    ensures r == GapReportOf(deviceName, focusArea, docIds, retrieve)
  {
    r := ReportFrom(CatalogFor(focusArea), deviceName, docIds, retrieve);
  }

  // ---------------------------------------------------------------------
  // properties of the report
  // ---------------------------------------------------------------------

  /** A requirement yields a gap exactly when it has no close enough
      evidence, and the gap is filled from the tables. */
  lemma GapForSpec(area: string, requirement: string, deviceName: string, docIds: seq<string>,
                   retrieve: (string, Option<string>) -> seq<Hit>)
    requires GapFor(area, requirement, deviceName, docIds, retrieve).Ok?
    ensures var g := GapFor(area, requirement, deviceName, docIds, retrieve).value;
      var chunks := Evidence(requirement, deviceName, docIds, retrieve);
      && (g.Some? <==> !HasEvidence(chunks))
      && (g.Some? ==>
            && g.value.gapTitle == "Missing: " + requirement
            && g.value.missingRequirement == area + ": " + requirement
            && g.value.severity == DetermineSeverity(requirement)
            && g.value.estimatedTimeline == Timeline(g.value.severity)
            && g.value.estimatedCost == Cost(g.value.severity)
            && |g.value.remediationSteps| == 4
            && g.value.fdaRequirementCitations == []
            && |g.value.userEvidenceCitations| == (if |chunks| < CitedChunks then |chunks| else CitedChunks))
  {
    var chunks := Evidence(requirement, deviceName, docIds, retrieve);
    if !HasEvidence(chunks) && chunks != [] {
      CitationsOfLength(Prefix(chunks, CitedChunks), MaxSnippetLength);
    }
  }

  /** How many requirements of an area yield a gap. */
  function Unsupported(area: string, requirements: seq<string>, deviceName: string, docIds: seq<string>,
                       retrieve: (string, Option<string>) -> seq<Hit>): nat
    decreases |requirements|
  {
    if requirements == [] then 0
    else (if HasEvidence(Evidence(requirements[0], deviceName, docIds, retrieve)) then 0 else 1)
         + Unsupported(area, requirements[1..], deviceName, docIds, retrieve)
  }

  function CatalogUnsupported(groups: seq<AreaGroup>, deviceName: string, docIds: seq<string>,
                              retrieve: (string, Option<string>) -> seq<Hit>): nat
    decreases |groups|
  {
    if groups == [] then 0
    else Unsupported(groups[0].area, groups[0].requirements, deviceName, docIds, retrieve)
         + CatalogUnsupported(groups[1..], deviceName, docIds, retrieve)
  }

  lemma {:induction false} RequirementGapsCount(area: string, requirements: seq<string>, deviceName: string,
                                                docIds: seq<string>, retrieve: (string, Option<string>) -> seq<Hit>)
    requires RequirementGaps(area, requirements, deviceName, docIds, retrieve).Ok?
    ensures |RequirementGaps(area, requirements, deviceName, docIds, retrieve).value|
            == Unsupported(area, requirements, deviceName, docIds, retrieve)
    ensures Unsupported(area, requirements, deviceName, docIds, retrieve) <= |requirements|
    decreases |requirements|
  {
    if requirements != [] {
      GapForSpec(area, requirements[0], deviceName, docIds, retrieve);
      RequirementGapsCount(area, requirements[1..], deviceName, docIds, retrieve);
    }
  }

  lemma {:induction false} CatalogGapsCount(groups: seq<AreaGroup>, deviceName: string, docIds: seq<string>,
                                            retrieve: (string, Option<string>) -> seq<Hit>)
    requires CatalogGaps(groups, deviceName, docIds, retrieve).Ok?
    ensures |CatalogGaps(groups, deviceName, docIds, retrieve).value|
            == CatalogUnsupported(groups, deviceName, docIds, retrieve)
    ensures CatalogUnsupported(groups, deviceName, docIds, retrieve) <= RequirementCount(groups)
    decreases |groups|
  {
    if groups != [] {
      RequirementGapsCount(groups[0].area, groups[0].requirements, deviceName, docIds, retrieve);
      CatalogGapsCount(groups[1..], deviceName, docIds, retrieve);
    }
  }

  /** The report has one gap per catalog requirement without evidence, so
      no more gaps than the catalog has requirements. */
  lemma GapReportCount(groups: seq<AreaGroup>, deviceName: string, docIds: seq<string>,
                       retrieve: (string, Option<string>) -> seq<Hit>)
    requires GapReportFrom(groups, deviceName, docIds, retrieve).Ok?
    ensures var gaps := GapReportFrom(groups, deviceName, docIds, retrieve).value;
      && |gaps| == CatalogUnsupported(groups, deviceName, docIds, retrieve)
      && |gaps| <= RequirementCount(groups)
  {
    CatalogGapsCount(groups, deviceName, docIds, retrieve);
  }

  /** The report runs from the most to the least severe gap. */
  lemma GapReportSorted(groups: seq<AreaGroup>, deviceName: string, docIds: seq<string>,
                        retrieve: (string, Option<string>) -> seq<Hit>)
    requires GapReportFrom(groups, deviceName, docIds, retrieve).Ok?
    ensures var gaps := GapReportFrom(groups, deviceName, docIds, retrieve).value;
      forall i, j :: 0 <= i < j < |gaps| ==> Rank(gaps[i].severity) <= Rank(gaps[j].severity)
  {
    MoreSevereIsStrictWeakOrder();
    SortBySorted(CatalogGaps(groups, deviceName, docIds, retrieve).value, MoreSevere);
  }

  /** Gaps of equal severity keep catalog order. */
  lemma GapReportStable(groups: seq<AreaGroup>, deviceName: string, docIds: seq<string>,
                        retrieve: (string, Option<string>) -> seq<Hit>, k: GapItem)
    requires GapReportFrom(groups, deviceName, docIds, retrieve).Ok?
    ensures Ties(GapReportFrom(groups, deviceName, docIds, retrieve).value, k, MoreSevere)
            == Ties(CatalogGaps(groups, deviceName, docIds, retrieve).value, k, MoreSevere)
  {
    MoreSevereIsStrictWeakOrder();
    SortByStable(CatalogGaps(groups, deviceName, docIds, retrieve).value, k, MoreSevere);
  }
}
