/** Detection of regulatory standards, requirement / test-case / risk
    identifiers and section headings in a chunk of text
    (backend/app/services/metadata_extractor.py).

    The source matches fixed regular expressions. Each is replaced here by a
    hand-written recogniser that accepts exactly where the expression
    matches, for ASCII letters and digits: `\w` is an ASCII letter, digit
    or `_`, `\d` an ASCII digit, `\s` a Python whitespace character, and
    IGNORECASE compares ASCII letters without case. */
module MetadataExtractor {
  import opened Wrappers
  import opened Strings
  import opened MetaValues

  predicate IsDigit(c: char) { '0' <= c <= '9' }

  predicate IsUpperLetter(c: char) { 'A' <= c <= 'Z' }

  /** The regex class `\w`, restricted to ASCII. */
  predicate IsWordChar(c: char) {
    IsDigit(c) || IsUpperLetter(c) || ('a' <= c <= 'z') || c == '_'
  }

  /** `\b` before a word character at `i`. */
  predicate WordStart(t: string, i: nat) {
    i == 0 || (i <= |t| && !IsWordChar(t[i - 1]))
  }

  /** `\b` after a word character ending at `e`. */
  predicate WordEnd(t: string, e: nat) {
    e == |t| || (e < |t| && !IsWordChar(t[e]))
  }

  /** `word` (upper case) occurs at `i` when case is ignored. */
  predicate CiAt(t: string, word: string, i: nat) {
    i + |word| <= |t| && Upper(t[i..i + |word|]) == word
  }

  /** `\s*` from `i`: the first index at or after `i` that is not whitespace. */
  function SkipSpaces(t: string, i: nat): (r: nat)
    requires i <= |t|
    ensures i <= r <= |t|
    ensures forall k :: i <= k < r ==> IsSpace(t[k])
    ensures r < |t| ==> !IsSpace(t[r])
    decreases |t| - i
  {
    if i < |t| && IsSpace(t[i]) then SkipSpaces(t, i + 1) else i
  }

  /** `\d+` run greedily from `i`: the first index at or after `i` that is
      not a digit. */
  function DigitsEnd(t: string, i: nat): (r: nat)
    requires i <= |t|
    ensures i <= r <= |t|
    ensures forall k :: i <= k < r ==> IsDigit(t[k])
    ensures r < |t| ==> !IsDigit(t[r])
    decreases |t| - i
  {
    if i < |t| && IsDigit(t[i]) then DigitsEnd(t, i + 1) else i
  }

  // ---------------------------------------------------------------------
  // Standards
  // ---------------------------------------------------------------------

  /** The three shapes of the standard patterns. An optional `-digits` or
      `.digits` suffix before the final `\b` never decides whether a search
      succeeds: `-` and `.` are not word characters, so `\b` already holds
      in front of them. What remains is a word boundary after the number. */
  datatype StandardPattern =
    | Numbered(prefix: string, number: string)  // \bPREFIX\s*NUMBER(suffix)?\b
    | Cfr                                        // \b21\s*CFR\s*\d+(?:\.\d+)?\b
    | Word(word: string)                         // \bWORD\b

  /** The named patterns, in the order of the source's table. */
  const StandardTable: seq<(string, StandardPattern)> := [
    ("ISO 10993", Numbered("ISO", "10993")),
    ("IEC 62304", Numbered("IEC", "62304")),
    ("ISO 14971", Numbered("ISO", "14971")),
    ("IEC 60601", Numbered("IEC", "60601")),
    ("ISO 13485", Numbered("ISO", "13485")),
    ("IEC 62366", Numbered("IEC", "62366")),
    ("FDA 21 CFR", Cfr),
    ("HIPAA", Word("HIPAA")),
    ("GDPR", Word("GDPR"))
  ]

  /** The pattern matches text starting at `i`. */
  predicate StandardAt(t: string, p: StandardPattern, i: nat) {
    match p
    case Numbered(prefix, number) =>
      WordStart(t, i) && CiAt(t, prefix, i)
      && var j := SkipSpaces(t, i + |prefix|);
         OccursAt(t, number, j) && WordEnd(t, j + |number|)
    case Cfr =>
      WordStart(t, i) && OccursAt(t, "21", i)
      && var j := SkipSpaces(t, i + 2);
         CiAt(t, "CFR", j)
         && var k := SkipSpaces(t, j + 3);
            k < |t| && IsDigit(t[k]) && WordEnd(t, DigitsEnd(t, k))
    case Word(word) =>
      WordStart(t, i) && CiAt(t, word, i) && WordEnd(t, i + |word|)
  }

  /** `re.search` succeeds. */
  predicate StandardFound(t: string, p: StandardPattern) {
    exists i: nat | i < |t| :: StandardAt(t, p, i)
  }

  /** Names of the table entries whose pattern is found, in table order. */
  function FoundNames(t: string, table: seq<(string, StandardPattern)>): (r: seq<string>)
    ensures forall n :: n in r <==> exists k :: 0 <= k < |table| && table[k].0 == n && StandardFound(t, table[k].1)
  {
    if table == [] then []
    else
      var rest := FoundNames(t, table[1..]);
      assert forall k :: 1 <= k < |table| ==> table[k] == table[1..][k - 1];
      (if StandardFound(t, table[0].1) then [table[0].0] else []) + rest
  }

  /** `detect_standards`: the names of the standards referenced, sorted and
      without duplicates. */
  function DetectStandards(text: string): (r: seq<string>)
    ensures StrictlySorted(r)
    ensures forall n :: n in r <==> Referenced(text, n)
  {
    if text == [] then [] else SortedSet(FoundNames(text, StandardTable))
  }

  /** Some pattern named `n` is found in `text`. */
  predicate Referenced(text: string, n: string) {
    exists k :: 0 <= k < |StandardTable| && StandardTable[k].0 == n && StandardFound(text, StandardTable[k].1)
  }

  // ---------------------------------------------------------------------
  // Identifiers
  // ---------------------------------------------------------------------

  /** `\bPREFIX[-_]?\d+(?:\.\d+)*\b` when `dotted`, else `\bPREFIX[-_]?\d+\b`. */
  datatype IdPattern = IdPattern(prefix: string, dotted: bool)

  const RequirementPatterns: seq<IdPattern> := [
    IdPattern("REQ", true), IdPattern("SRS", true), IdPattern("SYS", true),
    IdPattern("UR", false), IdPattern("FR", false)
  ]

  const TestCasePatterns: seq<IdPattern> := [
    IdPattern("TC", true), IdPattern("TEST", true),
    IdPattern("VT", false), IdPattern("SVT", false), IdPattern("UT", false)
  ]

  const RiskPatterns: seq<IdPattern> := [
    IdPattern("RISK", true), IdPattern("HAZ", true),
    IdPattern("FMEA", false), IdPattern("RM", false)
  ]

  /** Where a dotted match ends, given that the digit run ending at `e` has
      just been read and `prev` is the end of the run before it (if any).
      The greedy `(?:\.\d+)*` takes every `.digits` group; when no word
      boundary follows the last one, the engine gives that group back and
      ends in front of its `.`; with no group to give back the start fails. */
  function DottedEnd(t: string, prev: Option<nat>, e: nat): (r: Option<nat>)
    requires 0 < e <= |t| && IsDigit(t[e - 1])
    requires prev.Some? ==> 0 < prev.value < e && prev.value < |t| && t[prev.value] == '.' && IsDigit(t[prev.value - 1])
    ensures r.Some? ==> prev.Some? || r.value >= e
    ensures r.Some? ==> (prev.Some? && r.value == prev.value) || r.value >= e
    ensures r.Some? ==> 0 < r.value <= |t| && IsDigit(t[r.value - 1]) && WordEnd(t, r.value)
    decreases |t| - e
  {
    if e + 1 < |t| && t[e] == '.' && IsDigit(t[e + 1]) then
      DottedEnd(t, Some(e), DigitsEnd(t, e + 1))
    else if WordEnd(t, e) then Some(e)
    else prev
  }

  /** Where the match of `pat` that starts at `p` ends, if one starts there. */
  function IdMatchAt(t: string, pat: IdPattern, p: nat): (r: Option<nat>)
    requires p <= |t|
    ensures r.Some? ==> p + |pat.prefix| < r.value <= |t|
    ensures r.Some? ==> WordStart(t, p) && CiAt(t, pat.prefix, p)
    ensures r.Some? ==> IsDigit(t[r.value - 1]) && WordEnd(t, r.value)
  {
    if WordStart(t, p) && CiAt(t, pat.prefix, p) then
      var q := p + |pat.prefix|;
      var d := if q < |t| && (t[q] == '-' || t[q] == '_') then q + 1 else q;
      if d < |t| && IsDigit(t[d]) then
        var e := DigitsEnd(t, d);
        if pat.dotted then DottedEnd(t, None, e)
        else if WordEnd(t, e) then Some(e) else None
      else None
    else None
  }

  /** An identifier token: the prefix (ignoring case) and at least one more
      character, the last a digit. */
  predicate IsIdToken(m: string, pat: IdPattern) {
    |pat.prefix| < |m| && Upper(m[..|pat.prefix|]) == pat.prefix && IsDigit(m[|m| - 1])
  }

  /** `m` sits in `t` at `i` as a whole word. */
  predicate WholeWordAt(t: string, m: string, i: nat) {
    OccursAt(t, m, i) && WordStart(t, i) && WordEnd(t, i + |m|)
  }

  /** `re.findall(pattern, t[p:])`: non-overlapping matches, left to right,
      each search resuming where the previous match ended. */
  function FindAll(t: string, pat: IdPattern, p: nat): (r: seq<string>)
    requires p <= |t|
    ensures forall m :: m in r ==> IsIdToken(m, pat) && exists i: nat :: p <= i && WholeWordAt(t, m, i)
    decreases |t| - p
  {
    if p == |t| then []
    else
      match IdMatchAt(t, pat, p)
      case None => FindAll(t, pat, p + 1)
      case Some(e) =>
        MatchIsToken(t, pat, p, e);
        [t[p..e]] + FindAll(t, pat, e)
  }

  /** A match found at `p` is an identifier token sitting there as a whole word. */
  lemma MatchIsToken(t: string, pat: IdPattern, p: nat, e: nat)
    requires p <= |t| && IdMatchAt(t, pat, p) == Some(e)
    ensures p < e <= |t| && IsIdToken(t[p..e], pat) && WholeWordAt(t, t[p..e], p)
  {
    var m := t[p..e];
    assert m[..|pat.prefix|] == t[p..p + |pat.prefix|];
  }

  /** `re.findall` returns nothing exactly when no match starts at or after
      where the search begins. */
  lemma {:induction false} FindAllEmpty(t: string, pat: IdPattern, p: nat)
    requires p <= |t|
    ensures FindAll(t, pat, p) == [] <==> forall q :: p <= q < |t| ==> IdMatchAt(t, pat, q).None?
    decreases |t| - p
  {
    if p < |t| {
      FindAllEmpty(t, pat, p + 1);
    }
  }

  /** The search returns the leftmost match first and resumes where it ends. */
  lemma {:induction false} FindAllLeftmost(t: string, pat: IdPattern, p: nat, q: nat, e: nat)
    requires p <= q < |t| && IdMatchAt(t, pat, q) == Some(e)
    requires forall q' :: p <= q' < q ==> IdMatchAt(t, pat, q').None?
    ensures FindAll(t, pat, p) == [t[q..e]] + FindAll(t, pat, e)
    decreases q - p
  {
    if p < q {
      FindAllLeftmost(t, pat, p + 1, q, e);
    }
  }

  /** All matches of all patterns, pattern by pattern. */
  function AllMatches(t: string, pats: seq<IdPattern>): (r: seq<string>)
    ensures forall m :: m in r ==> exists k, i: nat :: 0 <= k < |pats| && IsIdToken(m, pats[k]) && WholeWordAt(t, m, i)
  {
    if pats == [] then []
    else
      var rest := AllMatches(t, pats[1..]);
      assert forall k :: 1 <= k < |pats| ==> pats[k] == pats[1..][k - 1];
      FindAll(t, pats[0], 0) + rest
  }

  /** Every match of every pattern is collected, and nothing else. */
  lemma {:induction false} AllMatchesComplete(t: string, pats: seq<IdPattern>)
    ensures forall m :: m in AllMatches(t, pats) <==> exists k :: 0 <= k < |pats| && m in FindAll(t, pats[k], 0)
  {
    if pats != [] {
      AllMatchesComplete(t, pats[1..]);
      assert forall k :: 1 <= k < |pats| ==> pats[k] == pats[1..][k - 1];
      assert forall k :: 0 <= k < |pats| - 1 ==> pats[1..][k] == pats[k + 1];
    }
  }

  function UpperAll(ms: seq<string>): (r: seq<string>)
    ensures |r| == |ms|
    ensures forall k :: 0 <= k < |ms| ==> r[k] == Upper(ms[k])
  {
    seq(|ms|, k requires 0 <= k < |ms| => Upper(ms[k]))
  }

  /** The at most ten smallest upper-cased identifiers, in sorted order. */
  function DetectIds(text: string, pats: seq<IdPattern>): (r: seq<string>)
    ensures StrictlySorted(r) && |r| <= 10
    ensures Elems(r) <= Elems(UpperAll(AllMatches(text, pats)))
    ensures forall x :: x in UpperAll(AllMatches(text, pats)) && x !in r ==>
              |r| == 10 && forall y :: y in r ==> StrLt(y, x)
  {
    var all := UpperAll(AllMatches(text, pats));
    if text == [] then
      NothingInEmptyText(pats);
      []
    else
      var s := SortedSet(all);
      PrefixOfSorted(s, 10);
      Prefix(s, 10)
  }

  /** The first match of any pattern in the text is reported, unless ten
      smaller identifiers fill the list. */
  lemma DetectIdsFindsFirstMatch(text: string, pats: seq<IdPattern>, k: nat, q: nat, e: nat)
    requires k < |pats| && q < |text| && IdMatchAt(text, pats[k], q) == Some(e)
    requires forall q' :: 0 <= q' < q ==> IdMatchAt(text, pats[k], q').None?
    ensures var r := DetectIds(text, pats);
      Upper(text[q..e]) in r || (|r| == 10 && forall y :: y in r ==> StrLt(y, Upper(text[q..e])))
  {
    FindAllLeftmost(text, pats[k], 0, q, e);
    MatchCollected(text, pats, k, text[q..e]);
  }

  /** A match found for one of the patterns is among the upper-cased matches. */
  lemma MatchCollected(text: string, pats: seq<IdPattern>, k: nat, m: string)
    requires k < |pats| && m in FindAll(text, pats[k], 0)
    ensures Upper(m) in UpperAll(AllMatches(text, pats))
  {
    AllMatchesComplete(text, pats);
    var all := AllMatches(text, pats);
    assert m in all;
    var j :| 0 <= j < |all| && all[j] == m;
    assert UpperAll(all)[j] == Upper(m);
  }

  lemma {:induction false} NothingInEmptyText(pats: seq<IdPattern>)
    ensures AllMatches("", pats) == []
  {
    if pats != [] {
      NothingInEmptyText(pats[1..]);
    }
  }

  /** The first `n` elements of a strictly sorted list are the `n` smallest. */
  lemma PrefixOfSorted(s: seq<string>, n: nat)
    requires StrictlySorted(s)
    ensures StrictlySorted(Prefix(s, n))
    ensures forall x :: x in s && x !in Prefix(s, n) ==>
              |Prefix(s, n)| == n && forall y :: y in Prefix(s, n) ==> StrLt(y, x)
  {
    var r := Prefix(s, n);
    forall x | x in s && x !in r
      ensures |r| == n && forall y :: y in r ==> StrLt(y, x)
    {
      var j :| 0 <= j < |s| && s[j] == x;
      assert j >= |r|;
      forall y | y in r ensures StrLt(y, x) {
        var i :| 0 <= i < |r| && r[i] == y;
        assert s[i] == y;
      }
    }
  }

  /** `detect_requirement_ids`. */
  function DetectRequirementIds(text: string): (r: seq<string>)
    ensures StrictlySorted(r) && |r| <= 10
    ensures text == "" ==> r == []
  {
    DetectIds(text, RequirementPatterns)
  }

  /** `detect_test_case_ids`. */
  function DetectTestCaseIds(text: string): (r: seq<string>)
    ensures StrictlySorted(r) && |r| <= 10
    ensures text == "" ==> r == []
  {
    DetectIds(text, TestCasePatterns)
  }

  /** `detect_risk_ids`. */
  function DetectRiskIds(text: string): (r: seq<string>)
    ensures StrictlySorted(r) && |r| <= 10
    ensures text == "" ==> r == []
  {
    DetectIds(text, RiskPatterns)
  }

  // ---------------------------------------------------------------------
  // Section headings
  // ---------------------------------------------------------------------

  /** The text before the first line feed: `s.split('\n')[0]`. */
  function FirstLineOf(s: string): (r: string)
    ensures |r| <= |s|
    ensures '\n' !in r
    ensures r == s[..|r|]
    ensures |r| < |s| ==> s[|r|] == '\n'
  {
    if s == [] || s[0] == '\n' then [] else [s[0]] + FirstLineOf(s[1..])
  }

  /** The candidate heading: the stripped first line of the stripped text. */
  function FirstLine(text: string): string {
    Strip(FirstLineOf(Strip(text)))
  }

  /** The end of the dotted number `\d+(?:\.\d+)*` whose first run ends at `e`. */
  function DottedNumberEnd(l: string, e: nat): (r: nat)
    requires e <= |l|
    requires e < |l| ==> !IsDigit(l[e])
    ensures e <= r <= |l|
    ensures r < |l| ==> !IsDigit(l[r])
    decreases |l| - e
  {
    if e + 1 < |l| && l[e] == '.' && IsDigit(l[e + 1]) then DottedNumberEnd(l, DigitsEnd(l, e + 1))
    else e
  }

  /** `^\d+(?:\.\d+)*\s+[A-Z]`, for example "1.2.3 Introduction". */
  predicate NumberedHeading(l: string) {
    |l| > 0 && IsDigit(l[0])
    && var e := DottedNumberEnd(l, DigitsEnd(l, 0));
       e < |l| && IsSpace(l[e])
       && var k := SkipSpaces(l, e);
          k < |l| && IsUpperLetter(l[k])
  }

  /** `^[A-Z][A-Z\s]+$`, for example "INTRODUCTION". */
  predicate CapitalsHeading(l: string) {
    |l| >= 2 && IsUpperLetter(l[0])
    && forall k :: 1 <= k < |l| ==> IsUpperLetter(l[k]) || IsSpace(l[k])
  }

  /** `^(?:Section|Chapter|Part)\s+\d+`, for example "Section 1". */
  predicate KeywordHeading(l: string) {
    exists w | w in ["Section", "Chapter", "Part"] ::
      OccursAt(l, w, 0) && |w| < |l| && IsSpace(l[|w|])
      && var k := SkipSpaces(l, |w|); k < |l| && IsDigit(l[k])
  }

  predicate LooksLikeHeading(l: string) {
    NumberedHeading(l) || CapitalsHeading(l) || KeywordHeading(l)
  }

  /** `detect_section_heading`: the first line, cut to 80 characters, when
      it is shorter than 100 characters and has a heading's shape. */
  function DetectSectionHeading(text: string): (r: Option<string>)
    ensures r.Some? <==> |FirstLine(text)| < 100 && LooksLikeHeading(FirstLine(text))
    ensures r.Some? ==> r.value == Prefix(FirstLine(text), 80)
  {
    if text == [] then None
    else
      var l := FirstLine(text);
      if |l| < 100 && LooksLikeHeading(l) then Some(Prefix(l, 80)) else None
  }

  /** Stripping the first line of a stripped text keeps its start, and the
      result holds no line break. */
  lemma FirstLineKeepsStart(s: string)
    requires IsStripped(s)
    ensures var l := Strip(FirstLineOf(s));
      |l| <= |s| && forall k :: 0 <= k < |l| ==> l[k] == s[k] && l[k] != '\n'
  {
    var line := FirstLineOf(s);
    var l := Strip(line);
    if line != [] {
      assert line[0] == s[0];
      assert StripStart(line) == 0;
      forall k | 0 <= k < |l| ensures l[k] == s[k] && l[k] != '\n' {
        assert l[k] == line[k];
        assert line[k] in line;
      }
    }
  }

  lemma OccursThroughSlice(text: string, a: nat, s: string, h: string)
    requires a + |s| <= |text| && s == text[a..a + |s|]
    requires |h| <= |s| && forall k :: 0 <= k < |h| ==> h[k] == s[k]
    ensures OccursAt(text, h, a)
  {
    assert forall k :: 0 <= k < |h| ==> text[a + k] == s[k];
    assert text[a..a + |h|] == h;
  }

  lemma HeadingCandidateChars(text: string)
    ensures var h := Prefix(FirstLine(text), 80);
      |h| <= 80 && |h| <= |Strip(text)|
      && forall k :: 0 <= k < |h| ==> h[k] == Strip(text)[k] && h[k] != '\n'
  {
    var s := Strip(text);
    var l := FirstLine(text);
    var h := Prefix(l, 80);
    FirstLineKeepsStart(s);
    assert forall k | 0 <= k < |h| :: h[k] == l[k];
  }

  /** The first 80 characters of the first line are the text that starts
      at the input's first non-whitespace character. */
  lemma CandidateAtStartOfText(text: string)
    ensures OccursAt(text, Prefix(FirstLine(text), 80), StripStart(text))
  {
    HeadingCandidateChars(text);
    OccursThroughSlice(text, StripStart(text), Strip(text), Prefix(FirstLine(text), 80));
  }

  lemma CandidateHasNoLineBreak(text: string)
    ensures '\n' !in Prefix(FirstLine(text), 80)
  {
    HeadingCandidateChars(text);
  }

  /** A detected heading is non-empty, holds no line break, and is the text
      that starts at the first non-whitespace character of the input. */
  lemma HeadingIsStartOfText(text: string)
    requires DetectSectionHeading(text).Some?
    ensures var h := DetectSectionHeading(text).value;
      0 < |h| <= 80 && '\n' !in h && OccursAt(text, h, StripStart(text))
  {
    assert FirstLine(text) != [];
    CandidateAtStartOfText(text);
    CandidateHasNoLineBreak(text);
  }

  // ---------------------------------------------------------------------
  // Everything for one chunk, and aggregation over chunks
  // ---------------------------------------------------------------------

  datatype Extracted = Extracted(
    standardsReferenced: seq<string>,
    requirementIds: seq<string>,
    testCaseIds: seq<string>,
    riskIds: seq<string>,
    sectionHeading: Option<string>)

  /** `extract_all_metadata`: the five detectors applied to the same text. */
  function ExtractAllMetadata(text: string): (r: Extracted)
    ensures StrictlySorted(r.standardsReferenced)
    ensures StrictlySorted(r.requirementIds) && |r.requirementIds| <= 10
    ensures StrictlySorted(r.testCaseIds) && |r.testCaseIds| <= 10
    ensures StrictlySorted(r.riskIds) && |r.riskIds| <= 10
  {
    Extracted(DetectStandards(text), DetectRequirementIds(text), DetectTestCaseIds(text),
              DetectRiskIds(text), DetectSectionHeading(text))
  }

  /** Empty text yields nothing from any detector. */
  lemma EmptyTextYieldsNothing()
    ensures ExtractAllMetadata("") == Extracted([], [], [], [], None)
  {
  }

  const StandardsKey: string := "standards_referenced"

  /** The standards listed in one metadata dictionary; none when the key is
      missing or its value is not a list. */
  function ListedStandards(meta: Metadata): seq<string> {
    if StandardsKey in meta && meta[StandardsKey].StrList? then meta[StandardsKey].items else []
  }

  function ConcatStandards(metas: seq<Metadata>): (r: seq<string>)
    ensures forall s :: s in r <==> exists k :: 0 <= k < |metas| && s in ListedStandards(metas[k])
  {
    if metas == [] then []
    else
      var rest := ConcatStandards(metas[1..]);
      assert forall k :: 1 <= k < |metas| ==> metas[k] == metas[1..][k - 1];
      ListedStandards(metas[0]) + rest
  }

  /** `aggregate_standards_from_chunks`: the sorted union of the listed standards. */
  function AggregateStandards(metas: seq<Metadata>): (r: seq<string>)
    ensures StrictlySorted(r)
    ensures forall s :: s in r <==>
      exists k :: 0 <= k < |metas| && StandardsKey in metas[k] && metas[k][StandardsKey].StrList?
                  && s in metas[k][StandardsKey].items
  {
    SortedSet(ConcatStandards(metas))
  }
}
