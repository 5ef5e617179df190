/** PlaybookGenerator: the service that turns an incident description into a
    playbook. It reads the query, takes the caller's context or else
    retrieves one, asks the language model with a fixed prompt and parses the
    reply. The vector search and the model are collaborators it cannot see,
    so they are parameters here: a search that may fail and a generator that
    always answers. */
module PlaybookGenerator {
  import opened Wrappers
  import opened Text
  import opened QueryProcessor
  import opened ContextBuilder
  import opened PlaybookFormatter

  /** How many search results the service asks for. */
  const TopK: nat := 5

  /** The separator between caller-supplied context passages. */
  const ContextSeparator: string := "\n\n"

  const SystemPrompt: string :=
    "You are an expert Site Reliability Engineer creating incident remediation playbooks.\n"
    + "Create clear, actionable, step-by-step playbooks that help resolve incidents quickly and safely."

  // ----- The prompt -----------------------------------------------------

  /** The fixed parts of the prompt, in order: before the incident, between
      the incident and the context, after the context up to the point where
      the verification instruction goes, and the rest. */
  const PromptIntro: string :=
    "Based on the following incident and relevant runbook sections, create a detailed remediation playbook.\n\n"
    + "INCIDENT: "
  const SectionsLabel: string := "\n\nRELEVANT RUNBOOK SECTIONS:\n"
  const Instructions: string :=
    "\n\nCreate a playbook with:\n"
    + "1. A clear title\n"
    + "2. A brief summary (2-3 sentences)\n"
    + "3. Step-by-step instructions with:\n"
    + "   - Action to take\n"
    + "   - Command to execute (if applicable)\n"
    + "   - Expected outcome\n"
    + "   - Verification method"
  const Closing: string :=
    "\n4. Estimated time to complete\n"
    + "5. Risk level (Low/Medium/High/Critical)\n\n"
    + "Format the playbook in markdown with clear sections."

  const VerificationText: string := "\nFor each step, include a verification method to confirm success."

  function VerificationInstruction(includeVerification: bool): string {
    if includeVerification then VerificationText else ""
  }

  /** The user prompt of `_generate_playbook_with_llm`. */
  function Prompt(incident: string, context: string, includeVerification: bool): string {
    PromptIntro + incident + SectionsLabel + context + Instructions + VerificationInstruction(includeVerification) + Closing
  }

  predicate EndsWith(s: string, w: string) {
    |w| <= |s| && s[|s| - |w|..] == w
  }

  /** The first four parts of a concatenation of seven are its slices at the
      running lengths, and it ends with the last part. */
  lemma ConcatSlices(a: string, b: string, c: string, d: string, e: string, f: string, g: string)
    ensures var p, i := a + b + c + d + e + f + g, |a| + |b|;
      var k := i + |c|;
      && k + |d| + |g| <= |p|
      && p[..|a|] == a
      && p[|a|..i] == b
      && p[i..k] == c
      && p[k..k + |d|] == d
      && EndsWith(p, g)
  {
    var p := a + b + c + d + e + f + g;
    assert p[..|a|] == a;
    assert p[|a|..|a| + |b|] == b;
    assert p[|a| + |b|..|a| + |b| + |c|] == c;
    assert p[|a| + |b| + |c|..|a| + |b| + |c| + |d|] == d;
    assert p[|p| - |g|..] == g;
  }

  /** The prompt carries the incident description and the context verbatim,
      each right after its label, and ends with the fixed closing lines. */
  lemma PromptLayout(incident: string, context: string, includeVerification: bool)
    ensures var p, i := Prompt(incident, context, includeVerification), |PromptIntro| + |incident|;
      var c := i + |SectionsLabel|;
      && c + |context| + |Closing| <= |p|
      && p[..|PromptIntro|] == PromptIntro
      && p[|PromptIntro|..i] == incident
      && p[i..c] == SectionsLabel
      && p[c..c + |context|] == context
      && EndsWith(p, Closing)
  {
    ConcatSlices(PromptIntro, incident, SectionsLabel, context, Instructions,
                 VerificationInstruction(includeVerification), Closing);
  }

  /** The prompt asks for verification methods exactly when the flag is set:
      what precedes the closing lines ends with the verification instruction
      iff `includeVerification` holds, and otherwise with the bare list item
      that the instruction would follow. */
  lemma PromptVerification(incident: string, context: string, includeVerification: bool)
    ensures var p := Prompt(incident, context, includeVerification);
      && |Closing| <= |p|
      && (includeVerification <==> EndsWith(p[..|p| - |Closing|], VerificationText))
      && (!includeVerification ==> EndsWith(p[..|p| - |Closing|], Instructions))
  {
    var p := Prompt(incident, context, includeVerification);
    var head := PromptIntro + incident + SectionsLabel + context + Instructions;
    var v := VerificationInstruction(includeVerification);
    assert p == (head + v) + Closing;
    assert p[..|p| - |Closing|] == head + v;
    if includeVerification {
      assert (head + v)[|head + v| - |VerificationText|..] == VerificationText;
    } else {
      assert head + v == head;
      assert head[|head| - |Instructions|..] == Instructions;
      assert head[|head| - 1] == 'd';
      assert VerificationText[|VerificationText| - 1] == '.';
    }
  }

  /** Filling an empty slot of a seven-part concatenation with `v` is cutting
      the concatenation where the last part begins and inserting `v`. */
  lemma FillBeforeLast(a: string, b: string, c: string, d: string, e: string, none: string, v: string, g: string)
    requires none == []
    ensures var q := a + b + c + d + e + none + g;
      && |g| <= |q|
      && a + b + c + d + e + v + g == q[..|q| - |g|] + v + q[|q| - |g|..]
  {
    var head := a + b + c + d + e;
    var q := a + b + c + d + e + none + g;
    assert q == head + g;
    assert q[..|q| - |g|] == head;
    assert q[|q| - |g|..] == g;
  }

  /** The prompt with verification is the one without it, with the
      instruction inserted right before the closing lines. */
  lemma PromptWithVerification(incident: string, context: string)
    ensures var q := Prompt(incident, context, false);
      && |Closing| <= |q|
      && Prompt(incident, context, true) == q[..|q| - |Closing|] + VerificationText + q[|q| - |Closing|..]
  {
    FillBeforeLast(PromptIntro, incident, SectionsLabel, context, Instructions,
                   VerificationInstruction(false), VerificationInstruction(true), Closing);
  }

  // ----- The service ----------------------------------------------------

  /** The context the model is given: the caller's passages joined by blank
      lines, or else the packed search results for the enhanced query, or
      the search's failure. */
  function ContextFor<E>(incident: string, context: Option<seq<string>>,
                         search: (string, nat) -> Result<seq<SearchResult>, E>): Result<string, E>
  {
    match context
    case Some(passages) => Success(JoinWith(ContextSeparator, passages))
    case None =>
      match search(Process(incident).enhancedQuery, TopK)
      case Failure(e) => Failure(e)
      case Success(results) => Success(ContextOf(results, DefaultMaxContextLength))
  }

  /** What `generate_playbook` returns: the parse of the model's reply to the
      prompt, or the search's failure. */
  function PlaybookFor<E>(incident: string, context: Option<seq<string>>, includeVerification: bool,
                          search: (string, nat) -> Result<seq<SearchResult>, E>,
                          generate: (string, string) -> string): Result<Playbook, E>
  {
    match ContextFor(incident, context, search)
    case Failure(e) => Failure(e)
    case Success(ctx) => Success(PlaybookOf(generate(Prompt(incident, ctx, includeVerification), SystemPrompt)))
  }

  /** Given context, there is no search: the result is the same whatever the
      search would do, and it cannot fail. */
  lemma GivenContextSkipsSearch<E>(incident: string, passages: seq<string>, includeVerification: bool,
                                   search1: (string, nat) -> Result<seq<SearchResult>, E>,
                                   search2: (string, nat) -> Result<seq<SearchResult>, E>,
                                   generate: (string, string) -> string)
    ensures ContextFor(incident, Some(passages), search1) == Success(JoinWith(ContextSeparator, passages))
    ensures PlaybookFor(incident, Some(passages), includeVerification, search1, generate)
         == PlaybookFor(incident, Some(passages), includeVerification, search2, generate)
    ensures PlaybookFor(incident, Some(passages), includeVerification, search1, generate).Success?
  {
  }

  /** Without context, the search is consulted once, for the enhanced query
      and five results: two searches that agree there give the same result. */
  lemma SearchOnlyForEnhancedQuery<E>(incident: string, includeVerification: bool,
                                      search1: (string, nat) -> Result<seq<SearchResult>, E>,
                                      search2: (string, nat) -> Result<seq<SearchResult>, E>,
                                      generate: (string, string) -> string)
    requires search1(Process(incident).enhancedQuery, TopK) == search2(Process(incident).enhancedQuery, TopK)
    ensures PlaybookFor(incident, None, includeVerification, search1, generate)
         == PlaybookFor(incident, None, includeVerification, search2, generate)
  {
  }

  /** The retrieved results are packed with the default budget. */
  lemma SearchedContext<E>(incident: string, search: (string, nat) -> Result<seq<SearchResult>, E>,
                           results: seq<SearchResult>)
    requires search(Process(incident).enhancedQuery, TopK) == Success(results)
    ensures ContextFor(incident, None, search) == Success(ContextOf(results, DefaultMaxContextLength))
  {
  }

  /** Nothing catches a failed search: its error is the service's. */
  lemma SearchFailurePropagates<E>(incident: string, includeVerification: bool,
                                   search: (string, nat) -> Result<seq<SearchResult>, E>,
                                   generate: (string, string) -> string, e: E)
    requires search(Process(incident).enhancedQuery, TopK) == Failure(e)
    ensures PlaybookFor(incident, None, includeVerification, search, generate) == Failure(e)
  {
  }

  /** The model is asked once, with the prompt and the system prompt: two
      models that give the same reply there give the same playbook. */
  lemma OnlyTheReplyMatters<E>(incident: string, context: Option<seq<string>>, includeVerification: bool,
                               search: (string, nat) -> Result<seq<SearchResult>, E>,
                               generate1: (string, string) -> string, generate2: (string, string) -> string)
    requires ContextFor(incident, context, search).Success? ==>
      var p := Prompt(incident, ContextFor(incident, context, search).value, includeVerification);
      generate1(p, SystemPrompt) == generate2(p, SystemPrompt)
    ensures PlaybookFor(incident, context, includeVerification, search, generate1)
         == PlaybookFor(incident, context, includeVerification, search, generate2)
  {
  }

  /** Whatever the model replies, a playbook that is returned has steps. */
  lemma PlaybookHasSteps<E>(incident: string, context: Option<seq<string>>, includeVerification: bool,
                            search: (string, nat) -> Result<seq<SearchResult>, E>,
                            generate: (string, string) -> string)
    ensures var r := PlaybookFor(incident, context, includeVerification, search, generate);
      r.Success? ==> r.value.steps != []
  {
  }

  class PlaybookGeneratorService<E> {
    const search: (string, nat) -> Result<seq<SearchResult>, E>
    const generate: (string, string) -> string
    const contextBuilder: ContextBuilder
    const formatter: PlaybookFormatter

    constructor(search: (string, nat) -> Result<seq<SearchResult>, E>, generate: (string, string) -> string)
      ensures this.search == search && this.generate == generate
    {
      this.search := search;
      this.generate := generate;
      contextBuilder := new ContextBuilder();
      formatter := new PlaybookFormatter();
    }

    /** `generate_playbook`, with the search's exception as a failure. */
    method GeneratePlaybook(incidentDescription: string, context: Option<seq<string>> := None,
                            includeVerification: bool := true)
      returns (r: Result<Playbook, E>)
      ensures r == PlaybookFor(incidentDescription, context, includeVerification, search, generate)
      ensures r.Success? ==> r.value.steps != []
    {
      var processedQuery := Process(incidentDescription);
      var contextStr: string;
      if context.None? {
        var searchResults := search(processedQuery.enhancedQuery, TopK);
        if searchResults.Failure? {
          return Failure(searchResults.error);
        }
        contextStr := contextBuilder.BuildContext(searchResults.value);
      } else {
        contextStr := JoinWith(ContextSeparator, context.value);
      }
      var playbookText := GenerateWithLlm(incidentDescription, contextStr, includeVerification);
      var playbook := formatter.ParsePlaybook(playbookText);
      r := Success(playbook);
    }

    /** `_generate_playbook_with_llm`: the model's reply to the prompt. */
    method GenerateWithLlm(incidentDescription: string, context: string, includeVerification: bool)
      returns (response: string)
      ensures response == generate(Prompt(incidentDescription, context, includeVerification), SystemPrompt)
    {
      var verificationInstruction := "";
      if includeVerification {
        verificationInstruction := VerificationText;
      }
      var prompt := PromptIntro + incidentDescription + SectionsLabel + context + Instructions
        + verificationInstruction + Closing;
      response := generate(prompt, SystemPrompt);
    }
  }
}
