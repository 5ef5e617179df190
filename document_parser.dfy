/** DocumentParser: coarse metadata of a runbook (incident type, severity,
    tags) read from labelled fields anywhere in its text. Lexical, first match
    wins, and never fails: each field falls back to its own default. */
module DocumentParser {
  import opened Wrappers
  import opened Text

  /** A runbook as the loader hands it over. */
  datatype RawDocument = RawDocument(content: string, source: string, filename: string)

  datatype Severity = Critical | High | Medium | Low {
    /** The lower-case spelling stored in the metadata. */
    function Name(): string {
      match this
      case Critical => "critical"
      case High => "high"
      case Medium => "medium"
      case Low => "low"
    }
  }

  datatype DocMetadata = DocMetadata(
    source: string,
    filename: string,
    incidentType: string,
    severity: Severity,
    tags: seq<string>)

  datatype ParsedDocument = ParsedDocument(content: string, metadata: DocMetadata)

  /** The incident-type kinds, tried in this order:
      `incident\s*type:`, `type:`, `category:` (all case-insensitive). */
  datatype TypeLabel = IncidentTypeLabel | TypeOnlyLabel | CategoryLabel

  const TypeLabels: seq<TypeLabel> := [IncidentTypeLabel, TypeOnlyLabel, CategoryLabel]

  /** Where the kind ends when it matches at `p`. */
  function LabelEnd(s: string, p: nat, kind: TypeLabel): (q: Option<nat>)
    ensures q.Some? ==> p < q.value <= |s|
  {
    match kind
    case IncidentTypeLabel =>
      if AtCI(s, p, "incident") then
        var r := p + 8 + SpaceRun(s, p + 8);
        if AtCI(s, r, "type:") then Some(r + 5) else None
      else None
    case TypeOnlyLabel => if AtCI(s, p, "type:") then Some(p + 5) else None
    case CategoryLabel => if AtCI(s, p, "category:") then Some(p + 9) else None
  }

  /** The pattern `(?i)<label>\s*(.+)` at `p`: the captured group. */
  function LabelValueAt(s: string, p: nat, kind: TypeLabel): Option<string> {
    match LabelEnd(s, p, kind)
    case None => None
    case Some(q) =>
      match RestOfLine(s, q, 0)
      case None => None
      case Some((a, e)) => Some(s[a..e])
  }

  /** The kind's pattern as a matcher for `Search`. */
  function LabelPattern(kind: TypeLabel): (string, nat) -> Option<string> {
    (t: string, p: nat) => LabelValueAt(t, p, kind)
  }

  /** The three incident-type patterns, in the order they are tried. */
  const TypePatterns: seq<(string, nat) -> Option<string>> :=
    [LabelPattern(IncidentTypeLabel), LabelPattern(TypeOnlyLabel), LabelPattern(CategoryLabel)]

  /** A value captured by `(.+)` lies on one line. */
  lemma LabelValueOneLine(s: string, p: nat, kind: TypeLabel)
    requires LabelPattern(kind)(s, p).Some?
    ensures '\n' !in LabelPattern(kind)(s, p).value
  {
    var q := LabelEnd(s, p, kind).value;
    var (a, e) := RestOfLine(s, q, 0).value;
    assert LabelValueAt(s, p, kind).value == s[a..e];
  }

  /** `_extract_incident_type`: the trimmed capture of the first kind, in the
      order incident type / type / category, that matches anywhere; `"unknown"`
      when none does. The value is one trimmed line. */
  function ExtractIncidentType(content: string): (r: string)
    ensures (forall k :: 0 <= k < |TypePatterns| ==> !Hits(content, TypePatterns[k])) ==> r == "unknown"
    ensures Hits(content, LabelPattern(IncidentTypeLabel)) ==>
      exists v :: LeftmostHit(content, LabelPattern(IncidentTypeLabel), v) && r == Strip(v)
    ensures !Hits(content, LabelPattern(IncidentTypeLabel)) && Hits(content, LabelPattern(TypeOnlyLabel)) ==>
      exists v :: LeftmostHit(content, LabelPattern(TypeOnlyLabel), v) && r == Strip(v)
    ensures !Hits(content, LabelPattern(IncidentTypeLabel)) && !Hits(content, LabelPattern(TypeOnlyLabel))
            && Hits(content, LabelPattern(CategoryLabel)) ==>
      exists v :: LeftmostHit(content, LabelPattern(CategoryLabel), v) && r == Strip(v)
    ensures '\n' !in r
    ensures r == [] || (!IsSpace(r[0]) && !IsSpace(r[|r| - 1]))
  {
    match FirstAlternative(content, TypePatterns)
    case Some(v) =>
      FirstAlternativeLeftmost(content, TypePatterns);
      FirstPatternOrder(content, v);
      StripKeepsAbsent(v, '\n');
      Strip(v)
    case None => "unknown"
  }

  /** Which kind's capture `FirstAlternative` returned is fixed by which kinds
      match. */
  lemma FirstPatternOrder(s: string, v: string)
    requires exists k :: 0 <= k < |TypePatterns| && LeftmostHit(s, TypePatterns[k], v)
                         && forall k' :: 0 <= k' < k ==> !Hits(s, TypePatterns[k'])
    ensures Hits(s, LabelPattern(IncidentTypeLabel)) ==> LeftmostHit(s, LabelPattern(IncidentTypeLabel), v)
    ensures !Hits(s, LabelPattern(IncidentTypeLabel)) && Hits(s, LabelPattern(TypeOnlyLabel)) ==>
      LeftmostHit(s, LabelPattern(TypeOnlyLabel), v)
    ensures (!Hits(s, LabelPattern(IncidentTypeLabel)) && !Hits(s, LabelPattern(TypeOnlyLabel))
             && Hits(s, LabelPattern(CategoryLabel))) ==> LeftmostHit(s, LabelPattern(CategoryLabel), v)
    ensures '\n' !in v
  {
    var k :| 0 <= k < |TypePatterns| && LeftmostHit(s, TypePatterns[k], v)
             && forall k' :: 0 <= k' < k ==> !Hits(s, TypePatterns[k']);
    assert TypePatterns[0] == LabelPattern(IncidentTypeLabel);
    assert TypePatterns[1] == LabelPattern(TypeOnlyLabel);
    assert TypePatterns[2] == LabelPattern(CategoryLabel);
    assert k > 0 ==> !Hits(s, TypePatterns[0]);
    assert k > 1 ==> !Hits(s, TypePatterns[1]);
    assert TypePatterns[k] == LabelPattern(TypeLabels[k]);
    LeftmostLabelOneLine(s, TypeLabels[k], v);
  }

  /** The leftmost capture of a kind is one line. */
  lemma LeftmostLabelOneLine(s: string, kind: TypeLabel, v: string)
    requires LeftmostHit(s, LabelPattern(kind), v)
    ensures '\n' !in v
  {
    var p :| 0 <= p <= |s| && LabelPattern(kind)(s, p) == Some(v)
             && forall p' :: 0 <= p' < p ==> LabelPattern(kind)(s, p').None?;
    LabelValueOneLine(s, p, kind);
  }

  /** The alternation `(critical|high|medium|low)` at `r`: the first
      alternative that matches, ignoring case. */
  function SeverityWordAt(s: string, r: nat): (v: Option<Severity>)
    ensures v.Some? ==> AtCI(s, r, v.value.Name())
    ensures v.None? <==> forall w: Severity :: !AtCI(s, r, w.Name())
  {
    if AtCI(s, r, "critical") then Some(Critical)
    else if AtCI(s, r, "high") then Some(High)
    else if AtCI(s, r, "medium") then Some(Medium)
    else if AtCI(s, r, "low") then Some(Low)
    else None
  }

  /** The pattern `(?i)severity:\s*(critical|high|medium|low)` at `p`. */
  function SeverityAt(s: string, p: nat): Option<Severity> {
    if AtCI(s, p, "severity:") then SeverityWordAt(s, p + 9 + SpaceRun(s, p + 9)) else None
  }

  const SeverityPattern: (string, nat) -> Option<Severity> := (t: string, p: nat) => SeverityAt(t, p)

  /** `_extract_severity`: the level named after the leftmost `severity:`
      kind that is followed by one of the four words, `Medium` when there is
      none. Since the level's name is lower case, the result is the captured
      word lower-cased. */
  function ExtractSeverity(content: string): (r: Severity)
    ensures !Hits(content, SeverityPattern) ==> r == Medium
    ensures Hits(content, SeverityPattern) ==> LeftmostHit(content, SeverityPattern, r)
  {
    SearchFromStart(content, SeverityPattern);
    match Search(content, 0, SeverityPattern)
    case Some((_, v)) => v
    case None => Medium
  }

  /** Every level's stored name is already lower case, so storing the
      captured word lower-cased and storing the level's name agree. */
  lemma NameIsLowerCase(v: Severity)
    ensures Lower(v.Name()) == v.Name()
  {
    LowerOfLowerCase(v.Name());
  }

  /** The fragment `(?i)tags?:` at `p`: where it ends. */
  function TagLabelEnd(s: string, p: nat): (q: Option<nat>)
    ensures q.Some? ==> p < q.value <= |s|
  {
    if !AtCI(s, p, "tag") then None
    else if At(s, p + 3, ":") then Some(p + 4)
    else if AtCI(s, p + 3, "s:") then Some(p + 5)
    else None
  }

  /** The pattern `(?i)tags?:\s*(.+)` at `p`: the captured group. */
  function TagsAt(s: string, p: nat): Option<string> {
    match TagLabelEnd(s, p)
    case None => None
    case Some(q) =>
      match RestOfLine(s, q, 0)
      case None => None
      case Some((a, e)) => Some(s[a..e])
  }

  function StripAll(parts: seq<string>): (r: seq<string>)
    ensures |r| == |parts| && forall i :: 0 <= i < |parts| ==> r[i] == Strip(parts[i])
  {
    seq(|parts|, i requires 0 <= i < |parts| => Strip(parts[i]))
  }

  const TagsPattern: (string, nat) -> Option<string> := (t: string, p: nat) => TagsAt(t, p)

  const TagSeparators: set<char> := {',', ';'}

  /** `_extract_tags`: empty when no `tag:`/`tags:` kind applies; otherwise the
      leftmost capture split at every `,` and `;`, each piece trimmed. There is
      one entry more than there are separators, empty entries included, and no
      entry holds a separator. */
  function ExtractTags(content: string): (r: seq<string>)
    ensures !Hits(content, TagsPattern) ==> r == []
    ensures Hits(content, TagsPattern) ==>
      exists g :: LeftmostHit(content, TagsPattern, g) && r == StripAll(SplitOn(g, TagSeparators))
    ensures forall i :: 0 <= i < |r| ==> ',' !in r[i] && ';' !in r[i]
  {
    SearchFromStart(content, TagsPattern);
    match Search(content, 0, TagsPattern)
    case Some((p, g)) =>
      var pieces := SplitOn(g, TagSeparators);
      forall i | 0 <= i < |pieces| ensures ',' !in Strip(pieces[i]) && ';' !in Strip(pieces[i]) {
        StripKeepsAbsent(pieces[i], ',');
        StripKeepsAbsent(pieces[i], ';');
      }
      StripAll(pieces)
    case None => []
  }

  /** `DocumentParser.parse`: the content is kept unchanged, source and
      file name are copied, and each metadata field is extracted from the
      content on its own, so that one field's default never affects another. */
  function Parse(doc: RawDocument): (r: ParsedDocument)
    ensures r.content == doc.content
    ensures r.metadata.source == doc.source && r.metadata.filename == doc.filename
    ensures r.metadata.incidentType == ExtractIncidentType(doc.content)
    ensures r.metadata.severity == ExtractSeverity(doc.content)
    ensures r.metadata.tags == ExtractTags(doc.content)
  {
    ParsedDocument(doc.content, DocMetadata(
      doc.source, doc.filename,
      ExtractIncidentType(doc.content), ExtractSeverity(doc.content), ExtractTags(doc.content)))
  }
}
