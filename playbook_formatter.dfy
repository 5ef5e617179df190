/** PlaybookFormatter: the markdown a language model returns, read into a
    playbook record. Every field has its own pattern and its own default, so
    the parse is total: any text, the empty one included, gives a playbook
    with at least one step. */
module PlaybookFormatter {
  import opened Wrappers
  import opened Text

  datatype Risk = Critical | High | Low | Medium {
    /** The spelling stored in the playbook. */
    function Name(): string {
      match this
      case Critical => "Critical"
      case High => "High"
      case Low => "Low"
      case Medium => "Medium"
    }
  }

  datatype Step = Step(
    stepNumber: nat,
    action: string,
    command: Option<string>,
    expectedOutcome: string,
    verification: Option<string>)

  datatype Playbook = Playbook(
    title: string,
    summary: string,
    steps: seq<Step>,
    estimatedTime: string,
    riskLevel: Risk)

  const DefaultTitle: string := "Incident Remediation Playbook"
  const DefaultSummary: string := "No summary available"
  const DefaultEstimatedTime: string := "30-60 minutes"
  const DefaultOutcome: string := "Step completed successfully"

  /** `_default_steps`: the single step used when no step block is found. */
  function DefaultSteps(): seq<Step> {
    [Step(1, "Assess the situation", None, "Clear understanding of the incident", Some("Document findings"))]
  }

  /** `_default_playbook`, the record of the exception handler. */
  function DefaultPlaybook(): Playbook {
    Playbook(DefaultTitle,
      "Unable to generate playbook. Please check the incident description and try again.",
      DefaultSteps(), "Unknown", Medium)
  }

  // ----- Where a lazy group may stop ------------------------------------

  /** The lookaheads that end a lazy group: `\n##` after a section body,
      `\n\*\*` after a bold field, `###\s+Step` or `\n##` after a step. The
      end of the text (`\Z`) ends each of them as well. */
  datatype Stop = SectionStop | FieldStop | StepStop

  /** `(?i)###\s+Step` at `e`. */
  predicate StepHeadAt(s: string, e: nat) {
    At(s, e, "###") && 0 < SpaceRun(s, e + 3) && AtCI(s, e + 3 + SpaceRun(s, e + 3), "step")
  }

  predicate StopAt(s: string, e: nat, kind: Stop) {
    match kind
    case SectionStop => At(s, e, "\n##")
    case FieldStop => At(s, e, "\n**")
    case StepStop => StepHeadAt(s, e) || At(s, e, "\n##")
  }

  /** Where a lazy DOTALL group that may end at `e` at the earliest does end:
      the first position from `e` on where its lookahead holds. */
  function LazyEnd(s: string, e: nat, kind: Stop): (r: nat)
    requires e <= |s|
    ensures e <= r <= |s|
    ensures r == |s| || StopAt(s, r, kind)
    ensures forall k :: e <= k < r ==> !StopAt(s, k, kind)
    decreases |s| - e
  {
    if e == |s| || StopAt(s, e, kind) then e else LazyEnd(s, e + 1, kind)
  }

  // ----- Title ----------------------------------------------------------

  /** `(?m)^#\s+(.+)` at `p`: a `#` at the start of a line, whitespace (which
      may run over line feeds) and the rest of a line. */
  function TitleAt(s: string, p: nat): Option<string> {
    if p < |s| && (p == 0 || s[p - 1] == '\n') && s[p] == '#' then
      match RestOfLine(s, p + 1, 1)
      case Some((a, e)) => Some(s[a..e])
      case None => None
    else None
  }

  const TitlePattern: (string, nat) -> Option<string> := (t: string, p: nat) => TitleAt(t, p)

  /** A title capture lies on one line. */
  lemma TitleOneLine(s: string, p: nat)
    requires TitleAt(s, p).Some?
    ensures '\n' !in TitleAt(s, p).value
  {
    var (a, e) := RestOfLine(s, p + 1, 1).value;
    assert TitleAt(s, p).value == s[a..e];
  }

  /** `_extract_title`: the trimmed rest of the first `# ` line, otherwise
      the default title. */
  function ExtractTitle(text: string): (r: string)
    ensures !Hits(text, TitlePattern) ==> r == DefaultTitle
    ensures Hits(text, TitlePattern) ==> exists v :: LeftmostHit(text, TitlePattern, v) && r == Strip(v)
    ensures Hits(text, TitlePattern) ==> '\n' !in r
  {
    SearchFromStart(text, TitlePattern);
    match Search(text, 0, TitlePattern)
    case Some((p, v)) =>
      TitleOneLine(text, p);
      StripKeepsAbsent(v, '\n');
      Strip(v)
    case None => DefaultTitle
  }

  // ----- Sections under a `##` heading ----------------------------------

  /** `(?i)##\s+<name>` at `p`, for a name that starts with a letter: where
      the name ends. */
  function HeadingNameEnd(s: string, p: nat, name: string): (u: Option<nat>)
    ensures u.Some? ==> p < u.value <= |s|
  {
    if At(s, p, "##") then
      var r := p + 2 + SpaceRun(s, p + 2);
      if r > p + 2 && AtCI(s, r, name) then Some(r + |name|) else None
    else None
  }

  /** The body group `(.+?)(?=\n##|\Z)` starting at `a`. With DOTALL it runs
      to the first `\n##` or the end of the text. Without DOTALL it cannot
      cross a line feed, so it is the rest of the line, and only when that
      line is followed directly by `\n##` or by the end of the text. */
  function BodyFrom(s: string, a: nat, dotall: bool): (r: Option<(nat, nat)>)
    requires a <= |s|
    ensures dotall ==> (r.Some? <==> a < |s|)
    ensures dotall && r.Some? ==> r.value == (a, LazyEnd(s, a + 1, SectionStop))
    ensures !dotall ==> (r.Some? <==> LineStartable(s, a) && (LineEnd(s, a) == |s| || At(s, LineEnd(s, a), "\n##")))
    ensures !dotall && r.Some? ==> r.value == (a, LineEnd(s, a))
  {
    if a == |s| then None
    else if dotall then Some((a, LazyEnd(s, a + 1, SectionStop)))
    else
      var e := LineEnd(s, a);
      if a < e && (e == |s| || At(s, e, "\n##")) then Some((a, e)) else None
  }

  /** Backtracking of `\s*\n` over the whitespace `s[u..u+n]`: the line feeds
      of the run are tried from the last, and the first one after which the
      body group succeeds is taken. */
  function LastBody(s: string, u: nat, n: nat, dotall: bool): (r: Option<(nat, nat)>)
    requires u + n <= |s|
    ensures r.Some? ==> u < r.value.0 <= u + n && s[r.value.0 - 1] == '\n'
    ensures r.Some? ==> BodyFrom(s, r.value.0, dotall) == r
  {
    match LastFeed(s, u, n, BodyFollows(s, dotall))
    case None => None
    case Some(j) => BodyFrom(s, j + 1, dotall)
  }

  function BodyFollows(s: string, dotall: bool): nat -> bool {
    (a: nat) => a <= |s| && BodyFrom(s, a, dotall).Some?
  }

  /** The line feed taken is the last one of the run after which a body can
      follow, and there is none exactly when no line feed of the run is
      followed by a body. */
  lemma LastBodyIsLast(s: string, u: nat, n: nat, dotall: bool)
    requires u + n <= |s|
    ensures var r := LastBody(s, u, n, dotall);
      && (r.Some? ==> forall j :: r.value.0 <= j < u + n && s[j] == '\n' ==> BodyFrom(s, j + 1, dotall).None?)
      && (r.None? <==> forall j :: u <= j < u + n && s[j] == '\n' ==> BodyFrom(s, j + 1, dotall).None?)
  {
    var ok := BodyFollows(s, dotall);
    var f := LastFeed(s, u, n, ok);
    if f.Some? {
      var k := f.value;
      Follows(s, dotall, k + 1);
      forall j | k + 1 <= j < u + n && s[j] == '\n'
        ensures BodyFrom(s, j + 1, dotall).None?
      {
        Follows(s, dotall, j + 1);
      }
    } else {
      forall j | u <= j < u + n && s[j] == '\n'
        ensures BodyFrom(s, j + 1, dotall).None?
      {
        Follows(s, dotall, j + 1);
      }
    }
  }

  lemma Follows(s: string, dotall: bool, a: nat)
    requires a <= |s|
    ensures BodyFollows(s, dotall)(a) <==> BodyFrom(s, a, dotall).Some?
  {
  }

  /** `(?i)##\s+<name>\s*\n(.+?)(?=\n##|\Z)` at `p`: the body group. */
  function HeadingSectionAt(s: string, p: nat, name: string, dotall: bool): Option<string> {
    match HeadingNameEnd(s, p, name)
    case None => None
    case Some(u) =>
      match LastBody(s, u, SpaceRun(s, u), dotall)
      case None => None
      case Some((a, e)) => Some(s[a..e])
  }

  /** The summary pattern is DOTALL; the two others are not. */
  const SummaryPattern: (string, nat) -> Option<string> :=
    (t: string, p: nat) => HeadingSectionAt(t, p, "summary", true)
  const EstimatedTimePattern: (string, nat) -> Option<string> :=
    (t: string, p: nat) => HeadingSectionAt(t, p, "estimated time", false)
  const RiskLevelPattern: (string, nat) -> Option<string> :=
    (t: string, p: nat) => HeadingSectionAt(t, p, "risk level", false)

  /** Without DOTALL a section value is one line, and the line after it is a
      `##` heading unless the text ends with the value. */
  lemma LineSectionShape(s: string, p: nat, name: string)
    requires HeadingSectionAt(s, p, name, false).Some?
    ensures var v := HeadingSectionAt(s, p, name, false).value;
      && v != [] && '\n' !in v
      && exists a :: 0 < a && At(s, a, v) && s[a - 1] == '\n'
                     && (a + |v| == |s| || At(s, a + |v|, "\n##"))
  {
    var u := HeadingNameEnd(s, p, name).value;
    var a := LastBody(s, u, SpaceRun(s, u), false).value.0;
    LineBodyShape(s, a);
  }

  /** A body without DOTALL is a non-empty line at `a`, followed by the end
      of the text or by `\n##`. */
  lemma LineBodyShape(s: string, a: nat)
    requires a <= |s| && BodyFrom(s, a, false).Some?
    ensures var v := s[a..BodyFrom(s, a, false).value.1];
      && v != [] && '\n' !in v && At(s, a, v)
      && (a + |v| == |s| || At(s, a + |v|, "\n##"))
  {
    var e := LineEnd(s, a);
    var v := s[a..e];
    assert forall k :: 0 <= k < |v| ==> v[k] == s[a + k];
  }

  /** `_extract_summary`: the trimmed body under the first `## Summary`
      heading, up to the next `##` heading, otherwise the default. */
  function ExtractSummary(text: string): (r: string)
    ensures !Hits(text, SummaryPattern) ==> r == DefaultSummary
    ensures Hits(text, SummaryPattern) ==> exists v :: LeftmostHit(text, SummaryPattern, v) && r == Strip(v)
  {
    SearchFromStart(text, SummaryPattern);
    match Search(text, 0, SummaryPattern)
    case Some((_, v)) => Strip(v)
    case None => DefaultSummary
  }

  /** `_extract_estimated_time`: the trimmed one-line value under the first
      `## Estimated Time` heading that the pattern accepts, otherwise the
      default. */
  function ExtractEstimatedTime(text: string): (r: string)
    ensures !Hits(text, EstimatedTimePattern) ==> r == DefaultEstimatedTime
    ensures Hits(text, EstimatedTimePattern) ==> exists v :: LeftmostHit(text, EstimatedTimePattern, v) && r == Strip(v)
    ensures Hits(text, EstimatedTimePattern) ==> '\n' !in r
  {
    SearchFromStart(text, EstimatedTimePattern);
    match Search(text, 0, EstimatedTimePattern)
    case Some((p, v)) =>
      LineSectionShape(text, p, "estimated time");
      StripKeepsAbsent(v, '\n');
      Strip(v)
    case None => DefaultEstimatedTime
  }

  /** The level named by a lower-cased risk value, by substring and in the
      priority critical, high, low; `Medium` when none occurs. */
  function RiskOf(risk: string): (r: Risk)
    ensures r == Critical <==> Occurs(risk, "critical", 0)
    ensures r == High <==> !Occurs(risk, "critical", 0) && Occurs(risk, "high", 0)
    ensures r == Low <==> !Occurs(risk, "critical", 0) && !Occurs(risk, "high", 0) && Occurs(risk, "low", 0)
    ensures r == Medium <==> !Occurs(risk, "critical", 0) && !Occurs(risk, "high", 0) && !Occurs(risk, "low", 0)
  {
    if Occurs(risk, "critical", 0) then Critical
    else if Occurs(risk, "high", 0) then High
    else if Occurs(risk, "low", 0) then Low
    else Medium
  }

  /** `_extract_risk_level`: the level read from the lower-cased trimmed value
      under the first accepted `## Risk Level` heading; `Medium` without one. */
  function ExtractRiskLevel(text: string): (r: Risk)
    ensures !Hits(text, RiskLevelPattern) ==> r == Medium
    ensures Hits(text, RiskLevelPattern) ==>
      exists v :: LeftmostHit(text, RiskLevelPattern, v) && r == RiskOf(Lower(Strip(v)))
  {
    SearchFromStart(text, RiskLevelPattern);
    match Search(text, 0, RiskLevelPattern)
    case Some((_, v)) => RiskOf(Lower(Strip(v)))
    case None => Medium
  }

  /** The estimated time must end the text or be followed by a heading: the
      same value with one line feed after it is not recognised, and the
      default is used. */
  lemma EstimatedTimeNeedsHeadingOrEnd(v: string)
    requires v != [] && !IsSpace(v[0])
    requires forall i :: 0 <= i < |v| ==> v[i] != '\n' && v[i] != '#'
    ensures ExtractEstimatedTime("## Estimated Time\n" + v) == Strip(v)
    ensures ExtractEstimatedTime("## Estimated Time\n" + v + "\n") == DefaultEstimatedTime
  {
    EstimatedTimeAtEnd(v);
    EstimatedTimeBeforeNewline(v);
  }

  /** A line that runs to the end of the text ends there. */
  lemma LineEndOfTail(s: string, a: nat)
    requires a <= |s| && '\n' !in s[a..]
    ensures LineEnd(s, a) == |s|
  {
  }

  /** A text that opens with the heading `## Estimated Time` and a line feed,
      followed by a non-space: the heading ends at that line feed, and the
      body, if any, starts right after it. */
  lemma EstimatedTimeHead(s: string)
    requires 18 < |s| && s[..18] == "## Estimated Time\n" && !IsSpace(s[18])
    ensures HeadingNameEnd(s, 0, "estimated time") == Some(17)
    ensures SpaceRun(s, 17) == 1
    ensures LastBody(s, 17, 1, false) == BodyFrom(s, 18, false)
  {
    var h := "## Estimated Time\n";
    assert forall j :: 0 <= j < 18 ==> s[j] == h[j] by {
      forall j | 0 <= j < 18 ensures s[j] == h[j] {
        assert s[..18][j] == s[j];
      }
    }
    assert At(s, 0, "##");
    assert SpaceRun(s, 3) == 0;
    assert SpaceRun(s, 2) == 1;
    assert AtCI(s, 3, "estimated time");
    assert SpaceRun(s, 18) == 0;
    var ok := BodyFollows(s, false);
    assert s[17] == '\n';
    assert LastFeed(s, 17, 0, ok).None?;
  }

  /** What the estimated-time pattern captures at the start of such a text:
      the one-line body that starts right after the heading's line feed. */
  lemma EstimatedTimeValue(s: string)
    requires 18 < |s| && s[..18] == "## Estimated Time\n" && !IsSpace(s[18])
    ensures BodyFrom(s, 18, false).None? ==> EstimatedTimePattern(s, 0).None?
    ensures BodyFrom(s, 18, false).Some? ==>
      EstimatedTimePattern(s, 0) == Some(s[18..BodyFrom(s, 18, false).value.1])
  {
    EstimatedTimeHead(s);
  }

  /** A pattern match at the start of the text is the leftmost one. */
  lemma EstimatedTimeFromStart(s: string)
    requires EstimatedTimePattern(s, 0).Some?
    ensures ExtractEstimatedTime(s) == Strip(EstimatedTimePattern(s, 0).value)
  {
    assert Search(s, 0, EstimatedTimePattern) == Some((0, EstimatedTimePattern(s, 0).value));
  }

  lemma EstimatedTimeAtEnd(v: string)
    requires v != [] && !IsSpace(v[0])
    requires forall i :: 0 <= i < |v| ==> v[i] != '\n'
    ensures ExtractEstimatedTime("## Estimated Time\n" + v) == Strip(v)
  {
    var s := "## Estimated Time\n" + v;
    assert s[..18] == "## Estimated Time\n" && s[18..] == v;
    EstimatedTimeRestOfText(s, v);
  }

  /** The same, for a text whose tail after the heading line is `v`. */
  lemma EstimatedTimeRestOfText(s: string, v: string)
    requires 18 < |s| && s[..18] == "## Estimated Time\n" && s[18..] == v
    requires !IsSpace(v[0]) && forall i :: 0 <= i < |v| ==> v[i] != '\n'
    ensures ExtractEstimatedTime(s) == Strip(v)
  {
    assert s[18] == v[0];
    assert '\n' !in s[18..];
    LineEndOfTail(s, 18);
    assert BodyFrom(s, 18, false) == Some((18, |s|));
    EstimatedTimeValue(s);
    assert s[18..|s|] == v;
    EstimatedTimeFromStart(s);
  }

  /** No position after the start of a text that opens with the heading
      `## Estimated Time` opens a `##` heading when the rest holds no `#`. */
  lemma NoLaterHeading(s: string)
    requires 18 <= |s| && s[..18] == "## Estimated Time\n"
    requires forall j :: 18 <= j < |s| ==> s[j] != '#'
    ensures forall p :: 1 <= p <= |s| ==> !At(s, p, "##")
  {
    NoHashInHeadingText(s);
    forall p | 1 <= p <= |s|
      ensures !At(s, p, "##")
    {
      if p + 2 <= |s| {
        if p == 1 {
          assert s[p + 1] != "##"[1];
        } else {
          assert s[p] != "##"[0];
        }
      }
    }
  }

  /** After its first two characters, the heading line holds no `#`. */
  lemma NoHashInHeadingText(s: string)
    requires 18 <= |s| && s[..18] == "## Estimated Time\n"
    ensures forall p :: 2 <= p < 18 ==> s[p] != '#'
  {
    var h := "## Estimated Time\n";
    assert s[2] == h[2] && s[3] == h[3] && s[4] == h[4] && s[5] == h[5] && s[6] == h[6] && s[7] == h[7];
    assert s[8] == h[8] && s[9] == h[9] && s[10] == h[10] && s[11] == h[11] && s[12] == h[12];
    assert s[13] == h[13] && s[14] == h[14] && s[15] == h[15] && s[16] == h[16] && s[17] == h[17];
  }

  lemma EstimatedTimeBeforeNewline(v: string)
    requires v != [] && !IsSpace(v[0])
    requires forall i :: 0 <= i < |v| ==> v[i] != '\n' && v[i] != '#'
    ensures ExtractEstimatedTime("## Estimated Time\n" + v + "\n") == DefaultEstimatedTime
  {
    var s := "## Estimated Time\n" + v + "\n";
    assert s[..18] == "## Estimated Time\n" && s[18..|s| - 1] == v && s[|s| - 1] == '\n';
    EstimatedTimeLineThenFeed(s, v);
  }

  /** The same, for a text whose tail after the heading line is `v` and a
      line feed. */
  lemma EstimatedTimeLineThenFeed(s: string, v: string)
    requires 19 < |s| && s[..18] == "## Estimated Time\n" && s[18..|s| - 1] == v && s[|s| - 1] == '\n'
    requires !IsSpace(v[0]) && forall i :: 0 <= i < |v| ==> v[i] != '\n' && v[i] != '#'
    ensures ExtractEstimatedTime(s) == DefaultEstimatedTime
  {
    assert forall j :: 18 <= j < |s| - 1 ==> s[j] == v[j - 18];
    assert s[18] == v[0];
    assert LineEnd(s, 18) == |s| - 1;
    assert BodyFrom(s, 18, false).None?;
    EstimatedTimeValue(s);
    NoLaterHeading(s);
    forall p | 1 <= p <= |s|
      ensures EstimatedTimePattern(s, p).None?
    {
      assert !At(s, p, "##");
    }
    SearchFromStart(s, EstimatedTimePattern);
  }

  // ----- Steps ----------------------------------------------------------

  /** One match of the step pattern: the step number's digits and their
      value, the title and body groups, and where the match ends. */
  datatype StepMatch = StepMatch(digits: string, number: nat, title: string, body: string, end: nat)

  /** Length of the run of ASCII digits that starts at `i` (greedy `\d+`). */
  function DigitRun(s: string, i: nat): (k: nat)
    requires i <= |s|
    ensures i + k <= |s|
    ensures forall j :: i <= j < i + k ==> IsDigit(s[j])
    ensures i + k == |s| || !IsDigit(s[i + k])
    decreases |s| - i
  {
    if i < |s| && IsDigit(s[i]) then 1 + DigitRun(s, i + 1) else 0
  }

  /** Backtracking of `\s+(.+?)\n(.+?)` after the number, the whitespace being
      `s[c..t]` once `t` is reached from its greedy end downwards. The lazy
      title ends at the first line feed that still leaves a character for
      the body; the first `t` for which there is one is taken. Result: the
      title's span. */
  function StepTitleFrom(s: string, c: nat, t: nat): (r: Option<(nat, nat)>)
    requires c <= t <= |s|
    ensures r.Some? ==> c < r.value.0 <= t && r.value.0 < r.value.1 && r.value.1 + 1 < |s|
    ensures r.Some? ==> r.value.1 == LineEnd(s, r.value.0 + 1)
    decreases t
  {
    if t <= c then None
    else if t < |s| && LineEnd(s, t + 1) + 1 < |s| then Some((t, LineEnd(s, t + 1)))
    else StepTitleFrom(s, c, t - 1)
  }

  /** `(?is)###\s+Step\s+(\d+):?\s+(.+?)\n(.+?)(?=###\s+Step|\n##|\Z)` at `p`. */
  function StepAt(s: string, p: nat): (r: Option<StepMatch>)
    ensures r.Some? ==> p < r.value.end <= |s|
    ensures r.Some? ==> r.value.digits != [] && (forall j :: 0 <= j < |r.value.digits| ==> IsDigit(r.value.digits[j]))
    ensures r.Some? ==> r.value.number == DigitsValue(r.value.digits)
  {
    if !StepHeadAt(s, p) then None
    else
      var r := p + 3 + SpaceRun(s, p + 3) + 4;
      var n := SpaceRun(s, r);
      var d := r + n;
      var k := DigitRun(s, d);
      if n == 0 || k == 0 then None
      else
        var g := d + k;
        var c := if g < |s| && s[g] == ':' then g + 1 else g;
        match StepTitleFrom(s, c, c + SpaceRun(s, c))
        case None => None
        case Some((t, x)) =>
          var y := LazyEnd(s, x + 2, StepStop);
          Some(StepMatchOf(s, d, k, t, x, y))
  }

  /** The captures of a step match: the `k` digits at `d`, the title
      `s[t..x]` and the body `s[x + 1..y]`. */
  function StepMatchOf(s: string, d: nat, k: nat, t: nat, x: nat, y: nat): (r: StepMatch)
    requires 0 < k && d + k <= |s| && forall j :: d <= j < d + k ==> IsDigit(s[j])
    requires t <= x < y <= |s|
    ensures r.digits == s[d..d + k] && r.end == y
    ensures r.digits != [] && (forall j :: 0 <= j < |r.digits| ==> IsDigit(r.digits[j]))
    ensures r.number == DigitsValue(r.digits)
  {
    var digits := s[d..d + k];
    DigitSlice(s, d, k, digits);
    StepMatch(digits, DigitsValue(digits), s[t..x], s[x + 1..y], y)
  }

  lemma DigitSlice(s: string, d: nat, k: nat, w: string)
    requires d + k <= |s| && forall j :: d <= j < d + k ==> IsDigit(s[j])
    requires w == s[d..d + k]
    ensures forall j :: 0 <= j < |w| ==> IsDigit(w[j])
  {
  }

  const StepPattern: (string, nat) -> Option<StepMatch> := (t: string, p: nat) => StepAt(t, p)

  const StepEnd: StepMatch -> nat := (m: StepMatch) => m.end

  /** Every step match ends after its start, so `finditer` moves forward. */
  lemma StepPatternAdvances(s: string)
    ensures Advances(s, StepPattern, StepEnd)
  {
    forall p: nat | p <= |s| && StepPattern(s, p).Some?
      ensures p < StepEnd(StepPattern(s, p).value) <= |s|
    {
      assert StepPattern(s, p) == StepAt(s, p);
    }
  }

  /** `re.finditer` with the step pattern over the whole text: the matches
      with their start positions. */
  function Matches(s: string): seq<(nat, StepMatch)> {
    StepPatternAdvances(s);
    FindAll(s, 0, StepPattern, StepEnd)
  }

  /** The step matches are exactly the sequence that `finditer` semantics
      describes: in text order, none overlapping the next, none skipped. */
  lemma MatchesAreFinditer(s: string, ms: seq<(nat, StepMatch)>)
    ensures IsFindAll(s, 0, StepPattern, StepEnd, ms) <==> ms == Matches(s)
  {
    StepPatternAdvances(s);
    FindAllIsFinditer(s, 0, StepPattern, StepEnd);
    if IsFindAll(s, 0, StepPattern, StepEnd, ms) {
      FinditerIsFindAll(s, 0, StepPattern, StepEnd, ms);
    }
  }

  // ----- Bold fields inside a step --------------------------------------

  /** `\*\*<name>\*\*` at `p` (the name ignoring case): where it ends. */
  function FieldMarkEnd(s: string, p: nat, name: string): (q: Option<nat>)
    ensures q.Some? ==> p < q.value <= |s|
  {
    if At(s, p, "**") && AtCI(s, p + 2, name) && At(s, p + 2 + |name|, "**") then Some(p + 4 + |name|)
    else None
  }

  /** `(?is)\*\*<name>\*\*:?\s*(.+?)(?=\n\*\*|\Z)` at `p`. The value group
      starts after the colon and the whitespace; when these reach the end of
      the text, backtracking hands it the last whitespace character, or else
      the colon. */
  function FieldAt(s: string, p: nat, name: string): (r: Option<string>)
    ensures r.Some? <==> FieldMarkEnd(s, p, name).Some? && FieldMarkEnd(s, p, name).value < |s|
  {
    match FieldMarkEnd(s, p, name)
    case None => None
    case Some(q) =>
      var c := if q < |s| && s[q] == ':' then q + 1 else q;
      var w := c + SpaceRun(s, c);
      var g := if w < |s| then Some(w) else if w > c then Some(w - 1) else if c > q then Some(q) else None;
      match g
      case None => None
      case Some(a) => Some(s[a..LazyEnd(s, a + 1, FieldStop)])
  }

  function FieldPattern(name: string): (string, nat) -> Option<string> {
    (t: string, p: nat) => FieldAt(t, p, name)
  }

  /** `re.sub(r'`([^`]+)`', r'\1', s)`: each pair of backticks around a
      non-empty backtick-free run is removed, scanning from the left. */
  function Unticked(s: string): (r: string)
    ensures |r| <= |s|
    decreases |s|
  {
    if s == [] then []
    else if s[0] == '`' then
      var k := TickFreeRun(s, 1);
      if k > 0 && 1 + k < |s| then s[1..1 + k] + Unticked(s[2 + k..])
      else [s[0]] + Unticked(s[1..])
    else [s[0]] + Unticked(s[1..])
  }

  /** Length of the run of characters other than a backtick starting at `i`. */
  function TickFreeRun(s: string, i: nat): (k: nat)
    requires i <= |s|
    ensures i + k <= |s|
    ensures forall j :: i <= j < i + k ==> s[j] != '`'
    ensures i + k == |s| || s[i + k] == '`'
    decreases |s| - i
  {
    if i < |s| && s[i] != '`' then 1 + TickFreeRun(s, i + 1) else 0
  }

  /** `s` without any backtick. */
  function DropTicks(s: string): (r: string)
    ensures '`' !in r
    decreases |s|
  {
    if s == [] then [] else (if s[0] == '`' then [] else [s[0]]) + DropTicks(s[1..])
  }

  lemma {:induction false} DropTicksAppend(a: string, b: string)
    ensures DropTicks(a + b) == DropTicks(a) + DropTicks(b)
    decreases |a|
  {
    if a == [] {
      assert a + b == b;
    } else {
      assert (a + b)[0] == a[0];
      assert (a + b)[1..] == a[1..] + b;
      DropTicksAppend(a[1..], b);
    }
  }

  /** Removing backtick pairs removes backticks and nothing else. */
  lemma {:induction false} UntickedDropsOnlyTicks(s: string)
    ensures DropTicks(Unticked(s)) == DropTicks(s)
    decreases |s|
  {
    if s != [] {
      var k := TickFreeRun(s, 1);
      if s[0] == '`' && k > 0 && 1 + k < |s| {
        var mid, rest := s[1..1 + k], s[2 + k..];
        assert Unticked(s) == mid + Unticked(rest);
        DropTicksQuoted(s, k);
        TickFreeKept(mid);
        UntickedDropsOnlyTicks(rest);
        DropTicksAppend(mid, Unticked(rest));
      } else {
        assert Unticked(s) == [s[0]] + Unticked(s[1..]);
        UntickedDropsOnlyTicks(s[1..]);
        DropTicksAppend([s[0]], Unticked(s[1..]));
        DropTicksFirst(s);
      }
    }
  }

  lemma DropTicksFirst(s: string)
    requires s != []
    ensures DropTicks(s) == DropTicks([s[0]]) + DropTicks(s[1..])
  {
    assert s == [s[0]] + s[1..];
    DropTicksAppend([s[0]], s[1..]);
  }

  /** A quoted run loses its two backticks and keeps its characters. */
  lemma DropTicksQuoted(s: string, k: nat)
    requires s != [] && s[0] == '`' && 0 < k && 1 + k < |s| && TickFreeRun(s, 1) == k
    ensures '`' !in s[1..1 + k]
    ensures DropTicks(s) == DropTicks(s[1..1 + k]) + DropTicks(s[2 + k..])
  {
    var mid, rest := s[1..1 + k], s[2 + k..];
    assert forall j :: 0 <= j < |mid| ==> mid[j] == s[1 + j];
    assert s[1 + k..] == [s[1 + k]] + rest;
    assert s[1..] == mid + s[1 + k..];
    assert s == [s[0]] + s[1..];
    DropTicksPair(mid, rest);
  }

  /** Two backticks around `mid` drop away. */
  lemma DropTicksPair(mid: string, rest: string)
    ensures DropTicks(['`'] + (mid + (['`'] + rest))) == DropTicks(mid) + DropTicks(rest)
  {
    var y := ['`'] + rest;
    var x := mid + y;
    DropTicksTick(x);
    DropTicksAppend(mid, y);
    DropTicksTick(rest);
  }

  /** A leading backtick drops away. */
  lemma DropTicksTick(s: string)
    ensures DropTicks(['`'] + s) == DropTicks(s)
  {
    var t := ['`'] + s;
    assert t[0] == '`' && t[1..] == s;
  }

  lemma {:induction false} TickFreeKept(s: string)
    requires '`' !in s
    ensures DropTicks(s) == s
    decreases |s|
  {
    if s != [] {
      assert '`' !in s[1..] by {
        assert forall j :: 0 <= j < |s| - 1 ==> s[1..][j] == s[j + 1];
      }
      TickFreeKept(s[1..]);
    }
  }

  /** Text without backticks is left unchanged, and a backtick-quoted
      command loses its quotes. */
  lemma {:induction false} UntickedPlain(s: string)
    requires '`' !in s
    ensures Unticked(s) == s
    decreases |s|
  {
    if s != [] {
      assert s[0] in s;
      assert '`' !in s[1..] by {
        assert forall j :: 0 <= j < |s| - 1 ==> s[1..][j] == s[j + 1];
      }
      UntickedPlain(s[1..]);
    }
  }

  lemma UntickedQuoted(w: string)
    requires w != [] && '`' !in w
    ensures Unticked("`" + w + "`") == w
  {
    var s := "`" + w + "`";
    assert forall j :: 1 <= j < 1 + |w| ==> s[j] == w[j - 1];
    assert TickFreeRun(s, 1) == |w| by {
      TickFreeRunAll(s, 1, |w|);
    }
    assert s[1..1 + |w|] == w;
    assert s[2 + |w|..] == [];
  }

  lemma {:induction false} TickFreeRunAll(s: string, i: nat, n: nat)
    requires i + n < |s| && s[i + n] == '`'
    requires forall j :: i <= j < i + n ==> s[j] != '`'
    ensures TickFreeRun(s, i) == n
    decreases n
  {
    if n > 0 {
      TickFreeRunAll(s, i + 1, n - 1);
    }
  }

  /** `_extract_field`: the first value of the bold field in the step's
      text, trimmed and with backtick pairs removed; `None` without one. */
  function ExtractField(text: string, fieldName: string): (r: Option<string>)
    ensures !Hits(text, FieldPattern(fieldName)) ==> r.None?
    ensures Hits(text, FieldPattern(fieldName)) ==>
      exists v :: LeftmostHit(text, FieldPattern(fieldName), v) && r == Some(Unticked(Strip(v)))
  {
    SearchFromStart(text, FieldPattern(fieldName));
    match Search(text, 0, FieldPattern(fieldName))
    case Some((_, v)) => Some(Unticked(Strip(v)))
    case None => None
  }

  /** The step a match stands for: its number and trimmed title, and the
      first value of each bold field of its trimmed text. A missing field is
      `None`, except the expected outcome, which falls back to the default
      outcome when it is missing or empty. */
  function StepOf(m: StepMatch): (r: Step)
    ensures r.stepNumber == m.number && r.action == Strip(m.title)
    ensures r.command.None? <==> !Hits(Strip(m.body), FieldPattern("Command"))
    ensures r.command.Some? ==>
      exists v :: LeftmostHit(Strip(m.body), FieldPattern("Command"), v) && r.command.value == Unticked(Strip(v))
    ensures r.verification.None? <==> !Hits(Strip(m.body), FieldPattern("Verification"))
    ensures r.verification.Some? ==>
      exists v :: LeftmostHit(Strip(m.body), FieldPattern("Verification"), v) && r.verification.value == Unticked(Strip(v))
    ensures !Hits(Strip(m.body), FieldPattern("Expected Outcome")) ==> r.expectedOutcome == DefaultOutcome
    ensures Hits(Strip(m.body), FieldPattern("Expected Outcome")) ==>
      exists v :: LeftmostHit(Strip(m.body), FieldPattern("Expected Outcome"), v) &&
        r.expectedOutcome == (if Unticked(Strip(v)) != [] then Unticked(Strip(v)) else DefaultOutcome)
  {
    var content := Strip(m.body);
    var outcome := ExtractField(content, "Expected Outcome");
    Step(m.number, Strip(m.title), ExtractField(content, "Command"),
      if outcome.Some? && outcome.value != [] then outcome.value else DefaultOutcome,
      ExtractField(content, "Verification"))
  }

  /** The step of one `finditer` match. */
  const MatchStep := (m: (nat, StepMatch)) => StepOf(m.1)

  /** What `_extract_steps` returns: one step per match, in order, and the
      default steps exactly when there is no match. Never empty. */
  function StepsOf(text: string): (r: seq<Step>)
    ensures r != []
    ensures Matches(text) == [] ==> r == DefaultSteps()
    ensures Matches(text) != [] ==>
      |r| == |Matches(text)| && forall i :: 0 <= i < |r| ==> r[i] == StepOf(Matches(text)[i].1)
  {
    var ms := Matches(text);
    if ms == [] then DefaultSteps() else Map(MatchStep, ms)
  }

  /** CPython's default `sys.int_info.default_max_str_digits`: `int()` raises
      `ValueError` on a decimal string with more digits than this. */
  const IntMaxStrDigits: nat := 4300

  /** `int(match.group(1))` accepts the step number of a match. */
  predicate NumberParses(m: StepMatch) {
    |m.digits| <= IntMaxStrDigits
  }

  /** `int()` accepts every step number of the matches. */
  predicate AllParse(ms: seq<(nat, StepMatch)>)
    decreases |ms|
  {
    ms == [] || (AllParse(ms[..|ms| - 1]) && NumberParses(ms[|ms| - 1].1))
  }

  /** `_extract_steps` finishes: `int()` accepts every step number. */
  predicate StepNumbersParse(text: string) {
    AllParse(Matches(text))
  }

  /** `AllParse` says that each number parses. */
  lemma {:induction false} AllParseAt(ms: seq<(nat, StepMatch)>)
    ensures AllParse(ms) <==> forall i :: 0 <= i < |ms| ==> NumberParses(ms[i].1)
    decreases |ms|
  {
    if ms != [] {
      var init := ms[..|ms| - 1];
      AllParseAt(init);
      assert forall i :: 0 <= i < |init| ==> init[i] == ms[i];
    }
  }

  /** One more accepted number keeps every number accepted. */
  lemma AllParseSnoc(ms: seq<(nat, StepMatch)>, x: (nat, StepMatch))
    requires AllParse(ms) && NumberParses(x.1)
    ensures AllParse(ms + [x])
  {
    assert (ms + [x])[..|ms|] == ms;
  }

  /** What `parse_playbook` returns: each field from its own extractor, or
      the record of the exception handler when `int()` rejects a step
      number. */
  function PlaybookOf(text: string): Playbook {
    if !StepNumbersParse(text) then DefaultPlaybook()
    else Playbook(ExtractTitle(text), ExtractSummary(text), StepsOf(text), ExtractEstimatedTime(text), ExtractRiskLevel(text))
  }

  /** A match whose number `int()` rejects stops `_extract_steps`. */
  lemma RejectedNumber(text: string, upTo: seq<(nat, StepMatch)>, later: seq<(nat, StepMatch)>)
    requires upTo != [] && upTo + later == Matches(text)
    requires !NumberParses(upTo[|upTo| - 1].1)
    ensures !StepNumbersParse(text)
  {
    AllParseAt(Matches(text));
    assert Matches(text)[|upTo| - 1] == upTo[|upTo| - 1];
  }

  /** A loop that went through every match with every number accepted has
      built the steps of the text. */
  lemma StepsFinished(text: string, seen: seq<(nat, StepMatch)>, steps: seq<Step>)
    requires seen == Matches(text) && AllParse(seen) && steps == Map(MatchStep, seen)
    ensures StepNumbersParse(text)
    ensures StepsOf(text) == if steps == [] then DefaultSteps() else steps
  {
  }

  /** One step number longer than `int()` accepts sends the whole parse to the
      exception handler, whatever else the text holds. */
  lemma HugeStepNumberDefaults(text: string, i: nat)
    requires i < |Matches(text)| && |Matches(text)[i].1.digits| > IntMaxStrDigits
    ensures PlaybookOf(text) == DefaultPlaybook()
    ensures PlaybookOf(text).summary != DefaultSummary && PlaybookOf(text).estimatedTime != DefaultEstimatedTime
  {
    AllParseAt(Matches(text));
  }

  /** The empty text gives every default at once. */
  lemma EmptyTextDefaults()
    ensures PlaybookOf("") == Playbook(DefaultTitle, DefaultSummary, DefaultSteps(), DefaultEstimatedTime, Medium)
  {
    assert TitlePattern("", 0).None?;
    assert SummaryPattern("", 0).None?;
    assert EstimatedTimePattern("", 0).None?;
    assert RiskLevelPattern("", 0).None?;
    assert StepPattern("", 0).None?;
  }

  /** The state of the loop of `_extract_steps` after the matches `seen`:
      `found` is the next match from `pos`, `steps` holds one step per match
      consumed, and every number consumed has gone through `int()`. */
  ghost predicate StepLoop(text: string, pos: nat, found: Option<(nat, StepMatch)>, seen: seq<(nat, StepMatch)>, steps: seq<Step>) {
    && pos <= |text| && Advances(text, StepPattern, StepEnd)
    && found == Search(text, pos, StepPattern)
    && seen + FindAll(text, pos, StepPattern, StepEnd) == Matches(text)
    && steps == Map(MatchStep, seen) && AllParse(seen)
  }

  /** One turn of the loop of `_extract_steps`: `int()` on the step number
      of the next match, then the step appended and the search resumed
      where the match ends. */
  method TakeMatch(text: string, pos: nat, ghost seen: seq<(nat, StepMatch)>, steps: seq<Step>, found: Option<(nat, StepMatch)>)
    returns (accepted: bool, pos': nat, ghost seen': seq<(nat, StepMatch)>, steps': seq<Step>, found': Option<(nat, StepMatch)>)
    requires StepLoop(text, pos, found, seen, steps) && found.Some?
    ensures accepted <==> NumberParses(found.value.1)
    ensures !accepted ==> !StepNumbersParse(text)
    ensures accepted ==> pos < pos' && StepLoop(text, pos', found', seen', steps')
  {
    var (p, m) := found.value;
    FindAllAdvance(text, pos, StepPattern, StepEnd, seen);
    if |m.digits| > IntMaxStrDigits {
      RejectedNumber(text, seen + [(p, m)], FindAll(text, m.end, StepPattern, StepEnd));
      return false, pos, seen, steps, found;
    }
    MapSnoc(MatchStep, seen, (p, m));
    AllParseSnoc(seen, (p, m));
    accepted, pos', seen', steps' := true, m.end, seen + [(p, m)], steps + [StepOf(m)];
    found' := Search(text, pos', StepPattern);
  }

  class PlaybookFormatter {
    constructor()
    {
    }

    /** `parse_playbook`: the record of the extractors, or `_default_playbook()`
        when `_extract_steps` raises. */
    method ParsePlaybook(playbookText: string) returns (playbook: Playbook)
      ensures playbook == PlaybookOf(playbookText)
      ensures playbook.steps != []
      ensures !StepNumbersParse(playbookText) ==> playbook == DefaultPlaybook()
    {
      var title := ExtractTitle(playbookText);
      var summary := ExtractSummary(playbookText);
      var extracted := ExtractSteps(playbookText);
      if extracted.None? {
        playbook := DefaultPlaybook();
        return;
      }
      var steps := extracted.value;
      var estimatedTime := ExtractEstimatedTime(playbookText);
      var riskLevel := ExtractRiskLevel(playbookText);
      playbook := Playbook(title, summary, steps, estimatedTime, riskLevel);
    }

    /** `_extract_steps`: the loop over the matches of `finditer`, appending
        one step per match; the default steps when it appended none. `None`
        stands for the `ValueError` of `int()` on a step number that is too
        long. */
    method ExtractSteps(text: string) returns (result: Option<seq<Step>>)
      ensures result.None? <==> !StepNumbersParse(text)
      ensures result.Some? ==> result.value == StepsOf(text)
    {
      var steps := [];
      var pos := 0;
      StepPatternAdvances(text);
      ghost var seen: seq<(nat, StepMatch)> := [];
      var found := Search(text, pos, StepPattern);
      while found.Some?
        invariant StepLoop(text, pos, found, seen, steps)
        decreases |text| - pos
      {
        var accepted;
        accepted, pos, seen, steps, found := TakeMatch(text, pos, seen, steps, found);
        if !accepted {
          return None;
        }
      }
      FindAllEnd(text, pos, StepPattern, StepEnd, seen);
      StepsFinished(text, seen, steps);
      if steps == [] {
        steps := DefaultSteps();
      }
      result := Some(steps);
    }
  }
}
