# Runbook RAG backend: the text pipeline, modelled in Dafny

This project models the deterministic core of a retrieval-augmented runbook
assistant. Runbooks are parsed for metadata and cut into chunks. A user's
incident query is analysed and enriched. Retrieved passages are packed into a
prompt context under a character budget. A language model's markdown reply is
parsed into a structured remediation playbook. The playbook service ties
these together.

Each stage is a module, and every module is stated on `seq<char>`:

| module | file | models |
|---|---|---|
| `Wrappers` | `wrappers.dfy` | `Option` (Python's `None`) and `Result` (a propagated exception) |
| `Text` | `text.dfy` | Python's `str.isspace`, `strip`, `split`, `join`, `lower`, `str(n)`/`int(s)`, and the leftmost-match semantics of `re.search` and `re.finditer` |
| `DocumentParser` | `document_parser.dfy` | `DocumentParser`: incident type, severity and tags read from labelled fields |
| `Chunker` | `chunker.dfy` | `ChunkingEngine`: sections at markdown headings, long sections cut into overlapping word windows |
| `DocumentProcessor` | `document_processor.dfy` | `DocumentProcessor.chunk_text`: whitespace normalisation and character windows pulled back to sentence ends |
| `QueryProcessor` | `query_processor.dfy` | `QueryProcessor`: keywords, incident type, urgency and the enhanced query |
| `ContextBuilder` | `context_builder.dfy` | `ContextBuilder.build_context`: greedy packing of search results under a budget |
| `PlaybookFormatter` | `playbook_formatter.dfy` | `PlaybookFormatter`: the regex extractors and defaults of `parse_playbook` |
| `PlaybookGenerator` | `playbook_generator.dfy` | `PlaybookGeneratorService`: query processing, context retrieval, prompt assembly and parsing |

Every regular expression of the pipeline is written out as a matcher at one
position (`(string, nat) -> Option<capture>`). Its greedy and lazy parts and
its backtracking follow Python's `re` engine. `Text.Search` then finds the
leftmost position where the matcher succeeds, as `re.search` does.
`Text.FindAll` chains such searches, as `re.finditer` does.

The imperative parts of the source are imperative here too:
- `_split_by_headers`, `_split_text`, `chunk_document`, `chunk_text`,
  `build_context` and `_extract_steps` are methods with loops;
- each such method is proved equal to a function of its inputs;
- the lemmas about that function state what the source promises.

The classes keep the source's configuration fields (`chunkSize`,
`chunkOverlap`). The service's collaborators become `const` fields: the
search and the language model are function-typed oracles.

Two behaviours of the code are easy to miss; the model follows the code:
- The context string can be longer than `max_context_length`. The budget
  counts the blocks but not the `"\n"` that joins them, so `k` packed blocks
  can give up to `max + k - 1` characters (`ContextBuilder.ContextBound`,
  `ContextBuilder.BudgetOverrunExample`).
- `chunk_overlap` is never checked against `chunk_size`.
  - In `chunk_text`, an overlap at least as large as the window, or a
    sentence end close to the window start, keeps `start` from advancing.
    The model stops there and reports `Stalled` (`DocumentProcessor.StallCause`).
    When the next start equals the current one, the source loops for ever
    (`DocumentProcessor.StallExample`).
    When it lies below the current one but not below 0, the source goes back over text it has already cut.
    When it is below 0, Python reads it from the end of the text: `rfind` and the
    slice see an empty range, the loop goes on, and it may finish
    (`DocumentProcessor.NegativeStartExample`).

## Model

| member | source | states |
|---|---|---|
| Text.Lower | backend/src/modules/rag_engine/query_processor.py:36 | lower-casing keeps the length and maps every character through ASCII lower-casing |
| Text.LowerOfLowerCase | backend/src/modules/rag_engine/query_processor.py:36 | a text without upper-case letters is its own lower-casing |
| Text.OccursCI | backend/src/modules/rag_engine/query_processor.py:52 | a case-insensitive search for a literal succeeds iff the literal occurs, ignoring case, at some position at or after the start |
| Text.Occurs | backend/src/modules/playbook_generator/formatter.py:107-111 | `w in s` holds iff `w` occurs at some position of `s` |
| Text.SpaceRun | backend/src/modules/document_ingestion/parser.py:32 | a greedy `\s*` takes whitespace only, and as much of it as there is |
| Text.LineEnd | backend/src/modules/document_ingestion/parser.py:32 | a greedy `.+` without DOTALL stops at the first line feed or at the end of the text |
| Text.Strip | backend/src/modules/document_ingestion/parser.py:40 | `strip()` gives the empty string iff the text is all whitespace, and otherwise a text that neither starts nor ends with whitespace |
| Text.StripAround | backend/src/modules/document_ingestion/parser.py:40 | `strip()` of whitespace, a trimmed middle and whitespace is exactly that middle |
| Text.StripSlice | backend/src/modules/document_ingestion/parser.py:40 | `strip()` returns a contiguous slice of its argument |
| Text.StripKeepsAbsent | backend/src/modules/document_ingestion/parser.py:40 | `strip()` introduces no character that was not in the text |
| Text.SplitOn | backend/src/modules/document_ingestion/parser.py:61 | splitting gives one piece more than there are separators, and no piece holds a separator |
| Text.SplitOnPlain | backend/src/modules/document_ingestion/parser.py:61 | a text without separators splits into itself alone |
| Text.SplitOnAround | backend/src/modules/document_ingestion/parser.py:61 | a separator splits the text in two: the pieces of the part before it, then those of the part after it |
| Text.JoinSplit | backend/src/modules/document_ingestion/chunker.py:60 | joining the pieces of `s.split(sep)` with `sep` gives `s` back |
| Text.JoinLength | backend/src/modules/rag_engine/context_builder.py:31 | a joined list of parts is as long as the parts plus one separator between each two neighbours |
| Text.Words | backend/src/modules/document_ingestion/chunker.py:87 | every piece of `split()` is a non-empty run without whitespace |
| Text.WordsOfJoin | backend/src/modules/document_ingestion/chunker.py:91-92 | splitting words joined by single spaces gives the same words back |
| Text.NatToString | backend/src/modules/rag_engine/context_builder.py:20 | `str(n)` is a non-empty string of decimal digits |
| Text.DigitsValueOfNatToString | backend/src/modules/playbook_generator/formatter.py:62 | `int(str(n)) == n` |
| Text.Search | backend/src/modules/document_ingestion/parser.py:38 | `re.search` from `from` returns the leftmost position where the pattern matches, with its capture; no match before it; `None` iff the pattern matches nowhere |
| Text.SearchFromStart | backend/src/modules/document_ingestion/parser.py:38 | a search of the whole text fails iff the pattern matches nowhere, and otherwise returns the leftmost capture |
| Text.FindAllIsFinditer | backend/src/modules/playbook_generator/formatter.py:59 | the matches that `finditer` yields are in text order, each the leftmost match after the end of the previous one, none skipped |
| Text.FinditerIsFindAll | backend/src/modules/playbook_generator/formatter.py:59 | only one sequence of matches has that property |
| Text.FindAllAdvance | backend/src/modules/playbook_generator/formatter.py:61 | each turn of a loop over `finditer` receives the next match, and the loop moves past its end |
| Text.FirstAlternative | backend/src/modules/document_ingestion/parser.py:37-42 | a list of patterns tried one after another finds nothing iff none of them matches anywhere |
| Text.FirstAlternativeLeftmost | backend/src/modules/document_ingestion/parser.py:37-40 | the capture returned is the leftmost capture of the first pattern that matches, and no earlier pattern matches |
| Text.RestOfLine | backend/src/modules/playbook_generator/formatter.py:40 | `\s+(.+)` takes the whitespace greedily and then the rest of a line; it backtracks to the last position where a non-line-feed character follows, and fails iff there is none |
| Text.RestOfLineOneLine | backend/src/modules/playbook_generator/formatter.py:40 | on one line, `\s+(.+)` captures everything after the whitespace, or the last whitespace character when nothing follows it |
| Text.LastFeed | backend/src/modules/playbook_generator/formatter.py:48 | the greedy `\s*\n` ends at the last line feed after which the rest of the pattern matches; no such line feed means no match |
| DocumentParser.LabelValueOneLine | backend/src/modules/document_ingestion/parser.py:32-34 | the `(.+)` after a label lies on one line |
| DocumentParser.ExtractIncidentType | backend/src/modules/document_ingestion/parser.py:29-42 | the trimmed capture of the first pattern, in the order `incident type:`, `type:`, `category:`, that matches anywhere; `"unknown"` when none does; one line, trimmed |
| DocumentParser.FirstPatternOrder | backend/src/modules/document_ingestion/parser.py:37-40 | the leftmost capture of the first pattern that matches is the one the cascade `incident type:`, `type:`, `category:` selects, and lies on one line |
| DocumentParser.SeverityWordAt | backend/src/modules/document_ingestion/parser.py:46 | the alternation `critical\|high\|medium\|low` succeeds iff one of the words occurs there, ignoring case |
| DocumentParser.ExtractSeverity | backend/src/modules/document_ingestion/parser.py:44-52 | the level of the leftmost `severity:` followed by a level word; `medium` when there is none |
| DocumentParser.NameIsLowerCase | backend/src/modules/document_ingestion/parser.py:50 | lower-casing the captured word gives the level's stored name |
| DocumentParser.StripAll | backend/src/modules/document_ingestion/parser.py:61 | every piece is trimmed, in order |
| DocumentParser.ExtractTags | backend/src/modules/document_ingestion/parser.py:54-63 | no tags without a `tag:`/`tags:` label; otherwise the leftmost capture split at `,` and `;` with each piece trimmed; no tag holds a separator |
| DocumentParser.Parse | backend/src/modules/document_ingestion/parser.py:11-27 | the content and the source fields are copied unchanged, and each metadata field is its own extractor applied to the content |
| Chunker.LeadingHashes | backend/src/modules/document_ingestion/chunker.py:59 | the count of `#` characters that open the line, maximal |
| Chunker.HeadingTitleShape | backend/src/modules/document_ingestion/chunker.py:59-73 | on a line, the header regex agrees with a regex-free description: a heading iff the line opens with 1 to 6 `#` and whitespace that is followed by text or is at least two characters long; the title is the trimmed text, or empty |
| Chunker.Classify | backend/src/modules/document_ingestion/chunker.py:64-77 | a line is a heading with the header pattern's title iff the pattern matches, and body text otherwise |
| Chunker.ClassifyAllAt | backend/src/modules/document_ingestion/chunker.py:64-65 | each line is classified on its own, whatever the lines around it |
| Chunker.ClassifyLine | backend/src/modules/document_ingestion/chunker.py:65-66 | the header test of one turn of the loop gives that line's classification |
| Chunker.Grouped | backend/src/modules/document_ingestion/chunker.py:62-81 | the section loop yields at least one section, the first titled like the current one |
| Chunker.Kept | backend/src/modules/document_ingestion/chunker.py:68-69 | only sections whose content is not blank are kept, each taken from the built ones |
| Chunker.GroupedLossless | backend/src/modules/document_ingestion/chunker.py:64-77 | the section bodies, blank ones included, are every non-heading line with its line feed, in order |
| Chunker.GroupedTitles | backend/src/modules/document_ingestion/chunker.py:62-75 | the sections' titles are `"Introduction"` followed by the title of every heading line, in order |
| Chunker.SectionsOfShape | backend/src/modules/document_ingestion/chunker.py:54-83 | no returned section is blank; each is titled `"Introduction"` or by a heading of the text; with the dropped blank ones they hold all body lines; the returned sections are exactly the non-blank grouped sections, in their order |
| Chunker.KeptSnoc | backend/src/modules/document_ingestion/chunker.py:68-69 | keeping the non-blank sections can be done from the back, one section at a time |
| Chunker.KeptSelects | backend/src/modules/document_ingestion/chunker.py:68-69 | the `k`-th kept section is the grouped section at the `k`-th kept index |
| Chunker.KeptIndicesIncreasing | backend/src/modules/document_ingestion/chunker.py:68-69 | the kept indices lie inside the grouped sections and strictly increase |
| Chunker.KeptCovers | backend/src/modules/document_ingestion/chunker.py:68-69 | every grouped section that is not blank has its index among the kept ones |
| Chunker.KeptAt | backend/src/modules/document_ingestion/chunker.py:68-69 | the kept sections are exactly the non-blank ones, in order: an increasing index map that misses no non-blank section |
| Chunker.FirstHeading | backend/src/modules/document_ingestion/chunker.py:64-66 | where the next heading line is: every earlier line is a body line |
| Chunker.GroupedSplit | backend/src/modules/document_ingestion/chunker.py:64-77 | the current section takes every body line up to the next heading, which opens an empty section |
| Chunker.GroupedCut | backend/src/modules/document_ingestion/chunker.py:64-75 | a heading line cuts the sections into those of the lines before it and those it opens |
| Chunker.GroupedAt | backend/src/modules/document_ingestion/chunker.py:64-77 | the section opened by the heading at line `i` comes after one section per earlier heading and holds exactly the body lines up to the next heading |
| Chunker.GroupedOfDocument | backend/src/modules/document_ingestion/chunker.py:60-83 | a document has one section per heading plus `"Introduction"`, which holds the lines before the first heading; each heading's section holds the body lines up to the next heading |
| Chunker.WindowAt | backend/src/modules/document_ingestion/chunker.py:90-91 | window `k` starts inside the word list at `from + k*step` and holds the next `size` words, or the rest |
| Chunker.WindowCount | backend/src/modules/document_ingestion/chunker.py:90 | there are `ceil((n - from) / step)` windows, and none when `from` is past the end |
| Chunker.WindowsRebuild | backend/src/modules/document_ingestion/chunker.py:90-91 | with `step <= size` the windows cover the words without a gap: rebuilding them gives the words back |
| Chunker.JoinAll | backend/src/modules/document_ingestion/chunker.py:92 | there is one joined text per window |
| Chunker.JoinAllAt | backend/src/modules/document_ingestion/chunker.py:92 | each window is joined with single spaces, in order |
| Chunker.TextWindowCount | backend/src/modules/document_ingestion/chunker.py:85-94 | a split text has one chunk per step needed to pass its last word, and none iff it has no words |
| Chunker.TextWindowAt | backend/src/modules/document_ingestion/chunker.py:85-94 | chunk `k` splits back into words `k*step` up to `k*step + size`: between 1 and `size` words, never blank |
| Chunker.WindowOfWords | backend/src/modules/document_ingestion/chunker.py:91-92 | a joined non-empty run of words splits back into the same words and is not blank |
| Chunker.Subsections | backend/src/modules/document_ingestion/chunker.py:40-50 | subsection chunk `i` has text `i`, the parent metadata, the section title and chunk index `i` |
| Chunker.SectionChunksShape | backend/src/modules/document_ingestion/chunker.py:25-50 | a section of at most `size` characters is one unchanged `"section"` chunk; a longer one gives at least one `"subsection"` chunk numbered 0, 1, 2, …; all keep the metadata and title, none is blank |
| Chunker.AllChunksShape | backend/src/modules/document_ingestion/chunker.py:16-52 | every chunk of a document carries its metadata and the title of one of its sections, and is not blank |
| Chunker.DocumentChunksShape | backend/src/modules/document_ingestion/chunker.py:16-52 | every chunk of a document carries the document's metadata, is not blank, and is titled `"Introduction"` or by a heading of the document |
| Chunker.ChunkingEngine.constructor | backend/src/modules/document_ingestion/chunker.py:12-14 | the engine keeps the given size and overlap |
| Chunker.ChunkingEngine.CloseSection | backend/src/modules/document_ingestion/chunker.py:68-69 | a closed section is appended iff its content is not blank, and what remains to emit loses exactly it |
| Chunker.ChunkingEngine.SplitByHeaders | backend/src/modules/document_ingestion/chunker.py:54-83 | the loop over lines returns the sections of the content |
| Chunker.ChunkingEngine.SplitText | backend/src/modules/document_ingestion/chunker.py:85-94 | the loop over window starts returns the joined word windows |
| Chunker.ChunkingEngine.ChunkDocument | backend/src/modules/document_ingestion/chunker.py:16-52 | the loop over sections returns the chunks of every section, section after section |
| Chunker.ChunkingEngine.ChunkSection | backend/src/modules/document_ingestion/chunker.py:25-50 | one turn of that loop returns the section's chunks |
| DocumentProcessor.CollapseShape | backend/services/document_processor.py:38 | `re.sub(r'\s+', ' ', s)` is the words joined by single spaces between a blank prefix and a blank suffix; the prefix is one space when the text opens with whitespace and has words |
| DocumentProcessor.NormalizeJoinsWords | backend/services/document_processor.py:38 | collapsing and then trimming gives the words joined by single spaces |
| DocumentProcessor.NormalizeKeepsWords | backend/services/document_processor.py:38 | normalising keeps the words and their order, and is idempotent |
| DocumentProcessor.FindLast | backend/services/document_processor.py:48 | `rfind(mark + ' ', lo, hi)` returns a position whose two characters lie in `[lo, hi)` |
| DocumentProcessor.FindLastSpec | backend/services/document_processor.py:48 | `rfind` returns the last occurrence in the range and `-1` iff there is none |
| DocumentProcessor.SentenceEnd | backend/services/document_processor.py:48-52 | the sentence-end search returns a position inside the window |
| DocumentProcessor.SentenceEndPriority | backend/services/document_processor.py:48-54 | the last `". "` wins over any `"! "` or `"? "`, then the last `"! "`, then the last `"? "`; no boundary iff none of the three occurs |
| DocumentProcessor.WindowEnd | backend/services/document_processor.py:45-54 | a window ends at most `size` after its start, strictly after it when `size >= 1`, and exactly `size` later when that reaches the end of the text |
| DocumentProcessor.WindowEndBoundary | backend/services/document_processor.py:47-54 | inside the text a window is cut short iff a sentence mark and a space lie in it, and then it ends just after the mark |
| DocumentProcessor.WindowsFromOk | backend/services/document_processor.py:44-67 | every window visited starts inside the text, after the one before it, and spans at most `size` characters |
| DocumentProcessor.ChunksOfWellFormed | backend/services/document_processor.py:56-65 | the emitted chunks are the non-empty stripped windows, with consecutive ids |
| DocumentProcessor.ChunksSnoc | backend/services/document_processor.py:56-65 | one more window adds its chunk, numbered after the others, iff its stripped text is not empty |
| DocumentProcessor.ChunkRunWellFormed | backend/services/document_processor.py:36-69 | every chunk is the non-empty stripped slice `text[start_idx:end_idx]` of the normalised text, at most `size` long, starting after the previous chunk, with ids 0, 1, 2, … |
| DocumentProcessor.NoOverlapFinishes | backend/services/document_processor.py:67 | without overlap the window start always moves forward |
| DocumentProcessor.ChunkTextFinishesWithoutOverlap | backend/services/document_processor.py:44-67 | without overlap and with a positive size, `chunk_text` ends |
| DocumentProcessor.StallCause | backend/services/document_processor.py:67 | the loop stalls only at a window inside the text that ends at most `overlap` characters after its start |
| DocumentProcessor.ChunkTextStallCause | backend/services/document_processor.py:44-67 | the same for `chunk_text` on the normalised text |
| DocumentProcessor.WindowsCover | backend/services/document_processor.py:44-67 | when the loop ends, every position of the text lies in some window |
| DocumentProcessor.StallExample | backend/services/document_processor.py:44-67 | `"a. bcdef"` with size 5 and overlap 2 emits `"a."` and then stalls at start 0, where the source repeats the window for ever |
| DocumentProcessor.NegativeStartExample | backend/services/document_processor.py:44-67 | `"a. bcd"` with size 5 and overlap 3 emits `"a."`, and the next start is -1; the model stalls at 0, where the source goes on from the end-relative start and finishes |
| DocumentProcessor.PriorityExample | backend/services/document_processor.py:48-54 | in `"a. b! cdef"` a 7-character window ends after `"a."`, not after the later `"b!"` |
| DocumentProcessor.DocumentProcessor.constructor | backend/services/document_processor.py:9-11 | the processor keeps the configured size and overlap |
| DocumentProcessor.DocumentProcessor.ChunkText | backend/services/document_processor.py:36-69 | the method returns the chunk run of the text |
| DocumentProcessor.DocumentProcessor.ChunkNormalized | backend/services/document_processor.py:40-69 | the `while` loop over the normalised text returns its chunk run |
| DocumentProcessor.DocumentProcessor.EmitChunk | backend/services/document_processor.py:56-65 | one turn appends the stripped window with the next id unless it is empty |
| DocumentProcessor.DocumentProcessor.WindowEndAt | backend/services/document_processor.py:45-54 | the three `rfind` calls compute the window end |
| DocumentProcessor.WindowsAdvance | backend/services/document_processor.py:67 | the loop stalls where the next start does not move forward, and otherwise goes on from it |
| QueryProcessor.Tokens | backend/src/modules/rag_engine/query_processor.py:36 | `findall(r'\b\w+\b')` yields non-empty runs of word characters, lower-case when the query is |
| QueryProcessor.TokensOfEmpty | backend/src/modules/rag_engine/query_processor.py:36 | there is no token in the empty text |
| QueryProcessor.TokensOfToken | backend/src/modules/rag_engine/query_processor.py:36 | a run of word characters alone is the one token found |
| QueryProcessor.TokensAround | backend/src/modules/rag_engine/query_processor.py:36 | a character that is not a word character separates: the tokens around it are those before it followed by those after it |
| QueryProcessor.RunStopsAt | backend/src/modules/rag_engine/query_processor.py:36 | a run of word characters stops at the first character that is not one |
| QueryProcessor.TokensOfJoin | backend/src/modules/rag_engine/query_processor.py:36 | tokenising tokens joined by spaces gives them back |
| QueryProcessor.KeepKeywords | backend/src/modules/rag_engine/query_processor.py:37 | a token is kept iff it is no stop word and longer than two characters |
| QueryProcessor.KeepKeywordsAppend | backend/src/modules/rag_engine/query_processor.py:37 | the filter works token by token, so order and repetitions are kept |
| QueryProcessor.Keywords | backend/src/modules/rag_engine/query_processor.py:31-39 | the keywords are exactly the lower-case tokens of the query that pass the filter, in the order of the tokens and with repetitions |
| QueryProcessor.AnyOccurs | backend/src/modules/rag_engine/query_processor.py:52 | an alternation matches iff one of its words occurs, ignoring case |
| QueryProcessor.FirstType | backend/src/modules/rag_engine/query_processor.py:51-55 | the first entry whose alternation matches, with no earlier one matching; `"general"` when none does |
| QueryProcessor.DetectIncidentType | backend/src/modules/rag_engine/query_processor.py:41-55 | `"general"` iff no type's keyword occurs; otherwise the first type, in dictionary order, with an occurring keyword |
| QueryProcessor.DetectUrgency | backend/src/modules/rag_engine/query_processor.py:57-64 | `"high"` iff an urgent word occurs, ignoring case, and `"normal"` otherwise |
| QueryProcessor.EnhanceQuery | backend/src/modules/rag_engine/query_processor.py:66-73 | the query is kept as a prefix, and `" <type> incident"` is appended unless the type is `"general"` |
| QueryProcessor.Process | backend/src/modules/rag_engine/query_processor.py:11-29 | the original query is kept and each field comes from its own helper |
| QueryProcessor.ProductionDatabaseType | backend/src/modules/rag_engine/query_processor.py:43-53 | `"production database connection timeout urgent"`, which also names a network word, is a database incident |
| QueryProcessor.ProductionDatabaseUrgency | backend/src/modules/rag_engine/query_processor.py:59-62 | the same query has urgency `"high"` |
| QueryProcessor.FeedbackIsDatabase | backend/src/modules/rag_engine/query_processor.py:44 | `"feedback"` contains `"db"`, so it is a database incident |
| ContextBuilder.SourceName | backend/src/modules/rag_engine/context_builder.py:17 | the file name, or `"unknown"` without one |
| ContextBuilder.SectionLine | backend/src/modules/rag_engine/context_builder.py:18-22 | the section line is empty iff the title is absent or empty |
| ContextBuilder.BlockShape | backend/src/modules/rag_engine/context_builder.py:20-23 | a block is the header with rank and source, the optional section line, then the content and a newline |
| ContextBuilder.Blocks | backend/src/modules/rag_engine/context_builder.py:15-23 | there is one block per search result |
| ContextBuilder.BlockAt | backend/src/modules/rag_engine/context_builder.py:15-23 | block `k` belongs to result `k` and carries rank `k + 1` |
| ContextBuilder.Packed | backend/src/modules/rag_engine/context_builder.py:25-29 | packing never takes more blocks than there are |
| ContextBuilder.PackedIsLongestFit | backend/src/modules/rag_engine/context_builder.py:25-29 | the packed blocks are the longest prefix within the budget: a prefix fits iff it is no longer than the packed one |
| ContextBuilder.PackedWithinBudget | backend/src/modules/rag_engine/context_builder.py:25-29 | the packed blocks total at most the budget |
| ContextBuilder.ContextBound | backend/src/modules/rag_engine/context_builder.py:10-31 | the context is the longest fitting prefix of the ranking, joined by newlines; its blocks fit the budget, and the text is one character longer per join |
| ContextBuilder.NoResultsEmpty | backend/src/modules/rag_engine/context_builder.py:31 | no results give the empty context |
| ContextBuilder.BudgetOverrunExample | backend/src/modules/rag_engine/context_builder.py:25-31 | two 30-character blocks both fit a budget of 60, and the context has 61 characters |
| ContextBuilder.HeaderLength | backend/src/modules/rag_engine/context_builder.py:20 | a one-digit rank's header is 27 characters plus the source |
| ContextBuilder.ContextBuilder.BuildContext | backend/src/modules/rag_engine/context_builder.py:10-31 | the loop returns the packed blocks joined by newlines |
| PlaybookFormatter.LazyEnd | backend/src/modules/playbook_generator/formatter.py:48 | a lazy group ends at the first position where its lookahead holds, or at the end of the text |
| PlaybookFormatter.TitleOneLine | backend/src/modules/playbook_generator/formatter.py:40 | a title capture lies on one line |
| PlaybookFormatter.ExtractTitle | backend/src/modules/playbook_generator/formatter.py:38-43 | the trimmed leftmost `# ` line capture, one line; the default title without one |
| PlaybookFormatter.BodyFrom | backend/src/modules/playbook_generator/formatter.py:47-48 | with DOTALL the body runs to the first `\n##` or the end; without it the body is one line and needs `\n##` or the end right after it |
| PlaybookFormatter.LastBody | backend/src/modules/playbook_generator/formatter.py:48 | the body taken starts after a line feed of the whitespace run after the heading name |
| PlaybookFormatter.LastBodyIsLast | backend/src/modules/playbook_generator/formatter.py:48 | that line feed is the last one followed by a body; no body iff none is |
| PlaybookFormatter.LineSectionShape | backend/src/modules/playbook_generator/formatter.py:95-96 | without DOTALL a section is one non-empty line that starts a line and is followed by `\n##` or the end |
| PlaybookFormatter.ExtractSummary | backend/src/modules/playbook_generator/formatter.py:45-51 | the trimmed leftmost summary body; the default summary without one |
| PlaybookFormatter.ExtractEstimatedTime | backend/src/modules/playbook_generator/formatter.py:93-99 | the trimmed leftmost estimated-time line, one line; the default without one |
| PlaybookFormatter.RiskOf | backend/src/modules/playbook_generator/formatter.py:106-113 | Critical iff `critical` occurs; else High iff `high`; else Low iff `low`; else Medium |
| PlaybookFormatter.ExtractRiskLevel | backend/src/modules/playbook_generator/formatter.py:101-114 | the level of the lower-cased trimmed leftmost risk line; Medium without one |
| PlaybookFormatter.EstimatedTimeNeedsHeadingOrEnd | backend/src/modules/playbook_generator/formatter.py:95-96 | an estimated time that ends the text is read; the same with a line feed after it gives the default |
| PlaybookFormatter.DigitRun | backend/src/modules/playbook_generator/formatter.py:58 | `\d+` takes the maximal run of digits |
| PlaybookFormatter.StepTitleFrom | backend/src/modules/playbook_generator/formatter.py:58 | the lazy title ends at the first line feed that leaves a body character |
| PlaybookFormatter.StepAt | backend/src/modules/playbook_generator/formatter.py:58 | a step match ends after its start and inside the text; its number is the value of its non-empty run of digits |
| PlaybookFormatter.StepOf | backend/src/modules/playbook_generator/formatter.py:61-78 | a step has the match's number and trimmed title; command and verification are absent exactly when their bold field is, and otherwise the field's first value; the expected outcome falls back to the default when the field is missing or empty |
| PlaybookFormatter.StepPatternAdvances | backend/src/modules/playbook_generator/formatter.py:59 | every step match moves `finditer` forward |
| PlaybookFormatter.MatchesAreFinditer | backend/src/modules/playbook_generator/formatter.py:59 | the step matches are exactly the `finditer` sequence |
| PlaybookFormatter.FieldAt | backend/src/modules/playbook_generator/formatter.py:84 | a bold field matches iff its mark occurs and is not at the end of the text |
| PlaybookFormatter.Unticked | backend/src/modules/playbook_generator/formatter.py:89 | removing backtick pairs never lengthens the text |
| PlaybookFormatter.UntickedDropsOnlyTicks | backend/src/modules/playbook_generator/formatter.py:89 | removing backtick pairs removes backticks and nothing else |
| PlaybookFormatter.UntickedPlain | backend/src/modules/playbook_generator/formatter.py:89 | a text without backticks is unchanged |
| PlaybookFormatter.UntickedQuoted | backend/src/modules/playbook_generator/formatter.py:89 | a quoted command loses its backticks |
| PlaybookFormatter.ExtractField | backend/src/modules/playbook_generator/formatter.py:82-91 | `None` without a match; otherwise the trimmed leftmost value with backtick pairs removed |
| PlaybookFormatter.StepsOf | backend/src/modules/playbook_generator/formatter.py:53-80 | what `_extract_steps` returns when it does not raise: never empty; the default steps iff there is no match; otherwise one step per match, in order |
| PlaybookFormatter.AllParseAt | backend/src/modules/playbook_generator/formatter.py:62 | every step number goes through `int()` iff each has at most 4300 digits |
| PlaybookFormatter.HugeStepNumberDefaults | backend/src/modules/playbook_generator/formatter.py:34-36 | a step number of more than 4300 digits makes `int()` raise, and the playbook is `_default_playbook()`, whose summary and time are not the extractors' defaults |
| PlaybookFormatter.TakeMatch | backend/src/modules/playbook_generator/formatter.py:60-78 | one turn of the loop: the number is accepted iff it has at most 4300 digits; a rejected one means the whole text does not parse; an accepted one extends the steps by the step of that match and moves past it |
| PlaybookFormatter.EmptyTextDefaults | backend/src/modules/playbook_generator/formatter.py:11-51 | the empty text gives every default at once |
| PlaybookFormatter.PlaybookFormatter.ParsePlaybook | backend/src/modules/playbook_generator/formatter.py:11-36 | the record of the five extractors when every step number parses, and `_default_playbook()` when one does not; always with steps |
| PlaybookFormatter.PlaybookFormatter.ExtractSteps | backend/src/modules/playbook_generator/formatter.py:53-80 | the loop over the matches fails iff some step number has more than 4300 digits, and otherwise returns the steps |
| PlaybookGenerator.PromptLayout | backend/src/modules/playbook_generator/service.py:75-93 | the prompt holds the incident and the context verbatim after their labels, and ends with the closing lines |
| PlaybookGenerator.PromptVerification | backend/src/modules/playbook_generator/service.py:71-89 | the part before the closing lines ends with the verification instruction iff it is requested, and otherwise with the bare list item |
| PlaybookGenerator.PromptWithVerification | backend/src/modules/playbook_generator/service.py:71-89 | the prompt with verification is the one without, with the instruction inserted before the closing lines |
| PlaybookGenerator.GivenContextSkipsSearch | backend/src/modules/playbook_generator/service.py:40-47 | given context, the context is the passages joined by blank lines; the result does not depend on the search and does not fail |
| PlaybookGenerator.SearchOnlyForEnhancedQuery | backend/src/modules/playbook_generator/service.py:40-44 | without context, only the search's answer for the enhanced query and 5 results matters |
| PlaybookGenerator.SearchedContext | backend/src/modules/playbook_generator/service.py:41-45 | the results are packed with the default budget of 3000 |
| PlaybookGenerator.SearchFailurePropagates | backend/src/modules/playbook_generator/service.py:41-45 | a failed search is the service's failure |
| PlaybookGenerator.OnlyTheReplyMatters | backend/src/modules/playbook_generator/service.py:50-57 | only the model's reply to the prompt and the system prompt matters |
| PlaybookGenerator.PlaybookHasSteps | backend/src/modules/playbook_generator/service.py:57-59 | a returned playbook always has steps |
| PlaybookGenerator.PlaybookGeneratorService.constructor | backend/src/modules/playbook_generator/service.py:19-25 | the service keeps the given search and model |
| PlaybookGenerator.PlaybookGeneratorService.GeneratePlaybook | backend/src/modules/playbook_generator/service.py:27-59 | the method returns the service's result, with steps when it succeeds |
| PlaybookGenerator.PlaybookGeneratorService.GenerateWithLlm | backend/src/modules/playbook_generator/service.py:61-96 | the reply of the model to the prompt and the system prompt |

## Left out

- Character classes: `\w`, `\d`, `re.IGNORECASE` and `str.lower()` are ASCII only.
  Python's Unicode letters, digits and case folding are not modelled.
- Text.DigitsValue: reads ASCII digits only. `int()` also accepts other Unicode decimal digits.
- File reading (`read_file`, `_read_pdf`, `_read_text` in `backend/services/document_processor.py`) is I/O and is not modelled.
- The chunk ids of `chunk_document` are random UUIDs, so the chunk records leave them out.
- Chunker.ChunkingEngine.constructor: requires `chunkOverlap < chunkSize`.
  The source accepts any pair: `range` raises on a zero step and yields nothing for a negative one.
- Sizes and overlaps are `nat`, so negative configuration values are not modelled.
- DocumentProcessor.DocumentProcessor.ChunkText: where the next start would not advance, it reports `Stalled` and stops.
  The source loops for ever when the start stays the same.
  It goes back over text already cut when the start decreases but stays at or above 0.
  When the start drops below 0, Python indexes from the end of the text: `rfind` and the slice see an empty range, no chunk is emitted, and the loop goes on and may finish (`"a. bcd"` with size 5 and overlap 3 ends with the chunks `"a."` and `". bcd"`).
  None of these three is followed; the model reports `Stalled` for each.
- Logging, `async`/`await`, the vector store and the embedding models are left out.
  The search and the language model are oracles: a function that may fail, and a function that always answers.
  The mock mode and provider fallback of the language-model client are inside that oracle.
- Missing dictionary keys (`KeyError` for a result without `"content"` or `"metadata"`) are not modelled: a search result always has content.
  A `filename` or `section_title` stored as `None` is modelled only as an absent key.
- PlaybookFormatter.PlaybookFormatter.ParsePlaybook: the exception handler is reached only through the `ValueError` of `int()` on a step number of more than 4300 digits.
  That is CPython's default `int` string-conversion limit; a limit changed with `sys.set_int_max_str_digits` is not modelled, nor are exceptions such as running out of memory.
- Relevance scores, floating point and the web routes are outside the modelled core.
