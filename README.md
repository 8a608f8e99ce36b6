# AI code assistant core, modelled in Dafny

This project models the core of a Python code assistant. The assistant sends
source files to a language-model backend (Ollama), reads issues out of the
replies, keeps a project context and an analysis history, and rewrites files
to fix the issues it found. The model covers the parts of that pipeline that
are logic rather than I/O:

- **Issue extraction and classification.** The code analyzer's five line
  patterns, its length filter, de-duplication and whole-line fallback
  (`issue_patterns.dfy`, `code_analyzer.dfy`). The enhanced analyzer's
  `Issue #n (Lines a-b): title` parser and its ordered, whole-word severity and
  type tests (`enhanced_analyzer.dfy`).
- **Reply extraction.** Fenced code blocks, the line-toggle fallback and the
  JSON candidates of the enhanced client (`enhanced_llm_service.dfy`), and the
  first-block extraction of the plain client (`llm_service.dfy`).
- **Backend calls.** The enhanced client's bounded retry loop with exponential
  backoff, its counters, error log and conversation history cut to twenty
  messages; the plain client's single request with token accounting and its
  error sentinel.
- **Per-file orchestration and aggregation.** The code analyzer's pass gating
  (more than 20 lines: security pass; more than 50: performance pass), cache
  reuse of unmodified files, project totals, top issues, growth
  recommendations and security overview. The enhanced analyzer's statistics,
  whose type and severity breakdowns always sum to the issue count, and its
  result cache keyed by path, analysis type, minimum issue count and content
  hash.
- **Keyed stores.** The project context's overwrite maps and related-file
  ranking (`project_context.dfy`, with `sorting.dfy` for Python's stable
  `sorted(..., reverse=True)`); the analysis history trimmed to the ten latest
  entries per project (`analysis_store.dfy`); the code fixer's report parsing,
  accept/reject of rewrites and marking of fixed issues (`code_fixer.dfy`).
- **Validators.** The bracket matcher, the modification check on integer
  mtimes, the `validate_code` dispatch and the extension-to-language table
  (`file_service.dfy`).

Shared modules: `wrappers.dfy` (Option), `text.dfy` (Python string operations
on ASCII), `json.dfy` (decoded JSON values and Python truthiness),
`dicts.dfy` (insertion-ordered dictionaries) and `records.dfy` (the issue and
file-analysis dictionaries as records).

Objects whose methods update fields in place (`ProjectContext`,
`AnalysisStore`, `EnhancedLlmService`, `LlmService`, `CodeAnalyzer`,
`EnhancedAnalyzer`, `CodeFixer`) are classes; each loop of the source is a
`while` loop proved against a specification function, and the properties the
source promises are lemmas about those functions.

What the program reads from outside is a parameter of the model: the
backend's replies and token counts (and, for the retry loop, whether each
attempt succeeds), `json.loads` (a function returning `None` where it raises),
`ast.parse` (whether the code parses), file contents and mtimes, the
`fnmatch` exclusion test, the directory listing, and the three collaborators
the enhanced analyzer calls but `file_service.py` does not define
(`get_all_files`, `calculate_file_hash`, `determine_language`). Retry count,
initial delay and partial-JSON switch, which `config.py` does not define, are
parameters of the enhanced client.

Regular expressions are modelled as scanners over positions with Python's
semantics: `finditer` resumes at a match's end (or one position later after a
miss), lazy bodies stop at the first position where their lookahead holds, and
the one backtracking case of the tail `\s*(.+?)` followed by a newline or the
end is modelled exactly. Character classes are ASCII.

Behaviour of the code worth knowing, which the model keeps:

- `CodeAnalyzer.analyze_directory` makes its three project-wide backend calls even when no file was taken in, and its report gives `files_analyzed` as the number of listed code files, skipped ones included.
- The enhanced analyzer gives no location for an issue on line 0, and its suggestion heading also matches "Suggestions". An issue's body runs to the next issue heading or the end of the text, so it is empty only when the heading ends the text (`EnhancedAnalyzer.IssueBodyEmptyOnlyAtEnd`); a heading with nothing after it on its line takes the next line as its title, even when that line is another issue heading, which is then lost (`EnhancedAnalyzer.BareHeadingSwallowsNext`).
- The enhanced analyzer's client is annotated as the plain `LLMService`, whose `analyze_code` accepts neither `min_issues` nor `context`, yet both calls pass them; with that client every fresh analysis raises before a request is made. The enhanced `EnhancedLLMService.analyze_code` accepts those keywords but raises too, in its own prompt building (`EnhancedLlm.EnhancedLlmService.AnalyzeCode`). So with either client in the source every fresh analysis raises; the model takes the reply as a parameter, as a hypothetical client whose prompt building accepts those keywords would give it.
- Four of the enhanced client's public calls (`analyze_code`, `chat_about_code`, `generate_code`, `create_project_structure`) raise in prompt building on every call, and so does `generate_fixes`; the model states the raise, and models what each would do once its prompt is built as a separate `...WithPrompt` method (see Findings).
- The enhanced analyzer calls `update_file_analysis` and `store_analysis` with keyword arguments their definitions do not accept, so with a project context or analysis store attached each analysed file raises after its counters and cache were updated.
- Python dictionaries treat `True` and `1` (and `False` and `0`) as one key; the enhanced analyzer's counters do too (`EnhancedAnalyzer.Key`). The model writes that key as `1`, where Python keeps whichever of the two was inserted first; only the key's spelling differs, the counts are the same.
- The code fixer accepts the plain client's timeout message as a fix for any language it does not check, and counts it as fixing every issue (`CodeFixer.TimeoutReplyAccepted`).
- `files_fixed` counts one per rewrite, so two report keys that name the same file count it twice.
- `validate_code` returns `None`, not `False`, for unbalanced JavaScript or TypeScript, and the fixer treats that as a rejection.

## Model

| member | source | states |
|---|---|---|
| LlmService.BodyEnd | src/llm/llm_service.py:343 | the lazy body `([\s\S]*?)` ends at the first position from which optional whitespace and a closing fence follow, and nowhere earlier |
| LlmService.BodyEndFirst | src/llm/llm_service.py:343 | any position where the closing fence matches with no earlier one is where the lazy body ends |
| LlmService.BodyFrom | src/llm/llm_service.py:343 | a captured body neither starts nor ends with whitespace and holds no fence |
| LlmService.FirstBlock | src/llm/llm_service.py:346-349 | the leftmost block found from a position has a body without surrounding whitespace and without a fence |
| LlmService.ExtractCodeBlock | src/llm/llm_service.py:331-349 | the first block's body carries no surrounding whitespace and no fence; `None` when nothing matches |
| LlmService.ExtractCodeBlockFound | src/llm/llm_service.py:331-349 | a block is found if and only if the reply holds two non-overlapping fences |
| LlmService.ExtractTaggedBlock | src/llm/llm_service.py:343-349 | a reply that is exactly one block tagged with the language gives back its code unchanged |
| LlmService.ExtractUntaggedBlock | src/llm/llm_service.py:343-349 | a reply that is one untagged block gives back its code, whatever language is asked for |
| LlmService.FramedBody | src/llm/llm_service.py:343 | a clean body between a newline and a newline-fence is captured exactly |
| LlmService.FixedCodeFallback | src/llm/llm_service.py:115-122 | a reply without a fence pair is used whole as the fix; a reply that is one clean block yields its code |
| LlmService.Answer | src/llm/llm_service.py:302-329 | a timeout or request error is reported with 0 tokens |
| LlmService.LlmService.constructor | src/llm/llm_service.py:30-32 | token and request counters start at zero |
| LlmService.LlmService.CallOllama | src/llm/llm_service.py:302-329 | a reply returns its text (empty when absent) and `eval_count + prompt_eval_count` tokens and counts once in both statistics; a timeout or request error returns its sentinel text with 0 tokens and leaves the statistics unchanged |
| LlmService.LlmService.GenerateFixes | src/llm/llm_service.py:77-122 | raises before any request exactly when the issues cannot build the prompt: neither a list of dictionaries each with a description, nor an empty string or dictionary; otherwise the fix is the first code block of the reply, or the whole reply when there is no block or it is empty, and the tokens are those of the call |
| LlmService.FixPromptOfTruthy | src/llm/prompt_builder.py:147-149 | issues that are not empty build the fix prompt exactly when they are a non-empty list of dictionaries each with a description |
| EnhancedLlm.BodyStart | src/llm/enhanced_llm_service.py:500 | after a fence, an optional `\w+` tag (or the literal `json` in the JSON pattern) must be followed by a newline; the body starts right after it |
| EnhancedLlm.CloseFrom | src/llm/enhanced_llm_service.py:500 | the first occurrence of newline-fence from a position, and none before it |
| EnhancedLlm.CloseFromFirst | src/llm/enhanced_llm_service.py:500 | an occurrence of newline-fence with none before it is the one the lazy body stops at |
| EnhancedLlm.MatchAt | src/llm/enhanced_llm_service.py:500 | a match has a non-empty body (`[\s\S]+?`) and ends after where it starts |
| EnhancedLlm.Blocks | src/llm/enhanced_llm_service.py:500-501 | every body `re.findall` returns is non-empty |
| EnhancedLlm.BlocksOfOneBlock | src/llm/enhanced_llm_service.py:500-501 | a reply that is one fenced block (word-tagged or untagged) yields exactly its body |
| EnhancedLlm.MarkerIsStripped | src/llm/enhanced_llm_service.py:512 | a line is a marker line exactly when, stripped, it starts with a fence |
| EnhancedLlm.InsideLinesNoMarkers | src/llm/enhanced_llm_service.py:511-517 | lines without markers are kept exactly when the toggle is inside code |
| EnhancedLlm.InsideLinesBetweenMarkers | src/llm/enhanced_llm_service.py:507-520 | the fallback keeps exactly the lines between an opening and a closing marker line |
| EnhancedLlm.InsideLinesNone | src/llm/enhanced_llm_service.py:519-523 | without a marker line the fallback keeps no line |
| EnhancedLlm.CodeOfOneBlock | src/llm/enhanced_llm_service.py:489-504 | a reply that is one fenced block gives back its body |
| EnhancedLlm.ExtractCode | src/llm/enhanced_llm_service.py:489-523 | the loop returns the fenced blocks joined by a blank line; failing those, the lines between marker lines joined by newlines; failing those, "" |
| EnhancedLlm.BraceMatches | src/llm/enhanced_llm_service.py:546-547 | `(\{[\s\S]+\})` matches at most once: the span from the first "{" to the last "}", at least three characters long, with no "{" before it and no "}" after it |
| EnhancedLlm.FirstDecoded | src/llm/enhanced_llm_service.py:539-555 | the value is that of some candidate that decodes, with every earlier candidate failing; `None` if and only if no candidate decodes |
| EnhancedLlm.FirstDecodedAt | src/llm/enhanced_llm_service.py:539-543 | the first candidate that decodes gives the result |
| EnhancedLlm.JsonCandidatesOfObject | src/llm/enhanced_llm_service.py:545-553 | a reply without a fence that is one brace-delimited span is handed to the decoder whole and alone |
| EnhancedLlm.ExtractJson | src/llm/enhanced_llm_service.py:525-555 | the loops return the first decodable candidate: the fenced untagged or `json` blocks in order, then the brace span; `None` when none decodes |
| EnhancedLlm.Backoffs | src/llm/enhanced_llm_service.py:410-413 | one wait per retry |
| EnhancedLlm.BackoffAt | src/llm/enhanced_llm_service.py:410-411 | the wait before retry k+1 is `retry_delay * 2**k` |
| EnhancedLlm.TotalBackoff | src/llm/enhanced_llm_service.py:385-413 | the waits before n retries add up to `retry_delay * (2**n - 1)` |
| EnhancedLlm.FirstReply | src/llm/enhanced_llm_service.py:385-408 | the first successful attempt, every earlier one having failed; `None` when all attempts fail |
| EnhancedLlm.FirstReplyIs | src/llm/enhanced_llm_service.py:385-400 | an attempt that succeeds after only failures is the one whose reply is used |
| EnhancedLlm.CallResult | src/llm/enhanced_llm_service.py:402-408 | when every attempt fails the call returns an "Error: " text with 0 tokens |
| EnhancedLlm.MinimalStructure | src/llm/enhanced_llm_service.py:335-342 | the fallback structure is a non-empty object with exactly the keys project_name, description, technologies, files and directories |
| EnhancedLlm.EnhancedLlmService.constructor | src/llm/enhanced_llm_service.py:37-44 | counters, errors and history start empty |
| EnhancedLlm.EnhancedLlmService.CallWithRetries | src/llm/enhanced_llm_service.py:346-413 | the request counts once up front; at most `max_retries + 1` attempts; the first reply returns its text and `total_tokens`, adds them to the total and records one time, after doubling waits; when all fail, the last error is returned with 0 tokens and exactly one error is recorded |
| EnhancedLlm.EnhancedLlmService.CallLlm | src/llm/enhanced_llm_service.py:346-413 | the `generate` endpoint with the same retry contract |
| EnhancedLlm.EnhancedLlmService.CallLlmChat | src/llm/enhanced_llm_service.py:415-487 | the `chat` endpoint with the same retry contract |
| EnhancedLlm.EnhancedLlmService.GenerateFixes | src/llm/enhanced_llm_service.py:110-166 | always raises before any request, since the keyword arguments it passes are not accepted by the base prompt builder; nothing is counted |
| EnhancedLlm.EnhancedLlmService.GenerateCode | src/llm/enhanced_llm_service.py:254-257 | always raises before any request, since `build_generation_prompt` does not exist on the prompt builder; nothing is counted and the history is unchanged |
| EnhancedLlm.EnhancedLlmService.GenerateCodeWithPrompt | src/llm/enhanced_llm_service.py:259-292 | once a system prompt is built: the result is the extracted code, or the whole reply when none is extracted; one request is counted and the history is unchanged |
| EnhancedLlm.EnhancedLlmService.CreateProjectStructure | src/llm/enhanced_llm_service.py:314 | always raises before any request, since `build_project_prompt` does not exist on the prompt builder; nothing is counted and the history is unchanged |
| EnhancedLlm.EnhancedLlmService.CreateProjectStructureWithPrompt | src/llm/enhanced_llm_service.py:316-344 | once a system prompt is built: the extracted JSON when it is truthy, otherwise the minimal structure built from the request; one request is counted |
| EnhancedLlm.EnhancedLlmService.AnalyzeCode | src/llm/enhanced_llm_service.py:70-75 | always raises before any request, since `build_analysis_prompt` takes no `min_issues` and needs the code, which is not passed; nothing is counted and the history is unchanged |
| EnhancedLlm.EnhancedLlmService.AnalyzeCodeWithPrompt | src/llm/enhanced_llm_service.py:77-108 | once a system prompt is built: the re-encoded JSON when some is extracted, is truthy and partial JSON is allowed; the raw reply otherwise; one request is counted |
| EnhancedLlm.EnhancedLlmService.ChatAboutCode | src/llm/enhanced_llm_service.py:190-193 | always raises before any request, since `build_chat_prompt` takes neither `project_path` nor `related_files` and needs the message and history, which are not passed; nothing is counted and the history is unchanged |
| EnhancedLlm.EnhancedLlmService.ChatAboutCodeWithPrompt | src/llm/enhanced_llm_service.py:195-230 | once a system prompt is built: snippets go first as one assistant message; when remembering, the sent messages and the reply join the history, which keeps only its last twenty entries; otherwise the history is unchanged |
| EnhancedLlm.EnhancedLlmService.ClearConversationHistory | src/llm/enhanced_llm_service.py:590-592 | the history is emptied and the counters are untouched |
| FileService.LastIndexOf | src/utils/file_service.py:47 | the index of the last occurrence of the character, or -1 when there is none |
| FileService.Extension | src/utils/file_service.py:47 | the extension `os.path.splitext` gives is empty or a dot followed by neither a slash nor a further dot |
| FileService.ExtensionOfFileName | src/utils/file_service.py:47 | a file named `stem.e` has extension `.e` in whatever directory it lives |
| FileService.ExtensionInDirectory | src/utils/file_service.py:40-47 | joining a file name to its directory does not change its extension |
| FileService.LanguageIgnoresCase | src/utils/file_service.py:65-77 | the language of a file name does not depend on the case of its extension: an extension and its lower-cased form name the same language, or both none |
| FileService.LanguageOf | src/utils/file_service.py:65-77 | the language the extension table gives for the lower-cased extension, or none |
| FileService.GetCodeFiles | src/utils/file_service.py:20-51 | the loops return, in walk order, the files of non-excluded directories whose path is not excluded and whose lower-cased extension is supported |
| FileService.KeepFiles | src/utils/file_service.py:39-49 | the inner loop keeps, in order, the files of one directory whose path is not excluded and whose lower-cased extension is supported |
| FileService.CodeFilesSupported | src/utils/file_service.py:20-51 | every path returned is not excluded and maps to a language |
| FileService.GetFileContent | src/utils/file_service.py:53-82 | an unsupported extension or a read error gives `(None, None)`; otherwise the text and the table's language for the lower-cased extension; content and language are present together |
| FileService.IsFileModifiedMonotone | src/utils/file_service.py:143-171 | an analysis recorded at the current mtime is reused; a different mtime invalidates it exactly when it is later; no prior analysis, or a failed stat, always counts as modified |
| FileService.IsFileModified | src/utils/file_service.py:143-171 | whether a file must be analysed again, whose properties `IsFileModifiedMonotone` states |
| FileService.CloserOf | src/utils/file_service.py:293-297 | each opener has a closer that the `delimiters` table maps back to it |
| FileService.Delimiters | src/utils/file_service.py:299-304 | the characters the matcher looks at are all delimiters |
| FileService.CheckBalancedDelimiters | src/utils/file_service.py:282-306 | the stack loop answers true exactly when the delimiters of the code, taken alone, are properly nested |
| FileService.RunAppend | src/utils/file_service.py:299-304 | running the matcher over a concatenation continues from where the first part left the stack |
| FileService.RunIgnoresOthers | src/utils/file_service.py:300-302 | characters other than delimiters leave the stack alone |
| FileService.RunOpeners | src/utils/file_service.py:300-301 | a run of openers is pushed as it is |
| FileService.FirstCloser | src/utils/file_service.py:302 | the first closer at or after a position, with none before it |
| FileService.BalancedDelimitersNested | src/utils/file_service.py:282-306 | for a string of delimiters the matcher succeeds if and only if the string is nested (reducible to empty by removing adjacent matching pairs) |
| FileService.BalancedIsNested | src/utils/file_service.py:282-306 | what the matcher accepts is nested |
| FileService.NestedIsBalanced | src/utils/file_service.py:282-306 | what is nested the matcher accepts |
| FileService.RemovePair | src/utils/file_service.py:299-304 | removing an adjacent matching pair does not change the outcome |
| FileService.RunPair | src/utils/file_service.py:300-304 | an opener followed by its closer leaves the stack as it was |
| FileService.BalancedIffNested | src/utils/file_service.py:282-306 | the check is true exactly when the code's delimiters are properly nested |
| FileService.BalancedConcat | src/utils/file_service.py:282-306 | two balanced pieces of code are balanced together |
| FileService.ValidateCode | src/utils/file_service.py:173-199 | Python is valid exactly when it parses; JavaScript and TypeScript are `True` when balanced and otherwise fall through to `None`; every other language is `True` |
| ProjectContext.Candidates | src/memory/project_context.py:178-213 | every counted file is an analysed file other than the given one, with a positive count equal to its common-issue count |
| ProjectContext.RelatedFilesProperties | src/memory/project_context.py:157-222 | a file without an analysis or without issues has no related files; otherwise the result never holds the file itself, holds only analysed files sharing at least one alike issue, ranks them by non-increasing count, holds no file twice and has at most `max_files` entries |
| ProjectContext.RelatedFiles | src/memory/project_context.py:157-222 | the ranking `get_related_files` returns, whose properties `RelatedFilesProperties` and `RelatedFilesComplete` state |
| ProjectContext.RelatedFilesComplete | src/memory/project_context.py:157-222 | every other analysed file sharing an alike issue is in the result unless the result is already full of files sharing at least as many |
| ProjectContext.SortedCandidates | src/memory/project_context.py:215-220 | the sorted counts name analysed files other than the given one, with their true counts, in non-increasing order and without repetition |
| ProjectContext.CandidatesDistinct | src/memory/project_context.py:178-213 | no file is counted twice when the analysed paths are distinct |
| ProjectContext.SimilarSymmetric | src/memory/project_context.py:202-209 | whether two descriptions are alike does not depend on which one is the file's own |
| ProjectContext.CountCommon | src/memory/project_context.py:189-209 | the outer loop's count equals the number of alike pairs of non-empty descriptions |
| ProjectContext.CountMatches | src/memory/project_context.py:196-209 | the inner loop counts the other file's non-empty descriptions alike to the given one |
| ProjectContext.ProjectContext.constructor | src/memory/project_context.py:14-27 | a new context is empty and named after the project directory |
| ProjectContext.ProjectContext.LoadOrCreate | src/memory/project_context.py:30-58 | the saved maps are taken over (each missing key as empty) only when the saved file names this project; otherwise the context stays empty |
| ProjectContext.ProjectContext.GetFileAnalysis | src/memory/project_context.py:82-92 | present exactly when an analysis is stored for the path, and then it is that analysis |
| ProjectContext.ProjectContext.UpdateFileAnalysis | src/memory/project_context.py:94-102 | the path now reads back the new analysis; every other path and the other two maps are unchanged |
| ProjectContext.ProjectContext.GetFileContext | src/memory/project_context.py:104-114 | present exactly when a note is stored for the path, and then it is that note |
| ProjectContext.ProjectContext.UpdateFileContext | src/memory/project_context.py:116-124 | the path now reads back the new note; everything else is unchanged |
| ProjectContext.ProjectContext.GetProjectContext | src/memory/project_context.py:126-136 | present exactly when a value is stored under the key, and then it is that value |
| ProjectContext.ProjectContext.UpdateProjectContext | src/memory/project_context.py:138-146 | the key now reads back the new value; everything else is unchanged |
| ProjectContext.ProjectContext.GetAllFilePaths | src/memory/project_context.py:148-155 | every analysed path exactly once |
| ProjectContext.ProjectContext.GetRelatedFiles | src/memory/project_context.py:157-222 | the nested counting loops and the sort produce the ranking that `RelatedFilesProperties` characterises |
| Sorting.Insert | src/memory/project_context.py:216-220 | inserting into a non-increasing list keeps it non-increasing and adds exactly the new element |
| Sorting.SortDesc | src/memory/project_context.py:216-220 | `sorted(..., reverse=True)` returns a permutation of its input in non-increasing key order |
| Sorting.PrefixKeepsLargest | src/memory/project_context.py:222 | cutting a sorted list keeps the largest keys: nothing left out ranks above anything kept |
| AnalysisStore.TrimmedProperties | src/memory/analysis_store.py:52-58 | after an append the list keeps at most ten entries; ten or fewer are untouched; a longer list becomes ten of its own entries, latest first, and no dropped entry is later than a kept one |
| AnalysisStore.SummariesOf | src/memory/analysis_store.py:118-125 | one summary per stored entry of a project |
| AnalysisStore.SummariesCount | src/memory/analysis_store.py:116-125 | the collected summaries number exactly the stored entries |
| AnalysisStore.AnalysisStore.constructor | src/memory/analysis_store.py:143-154 | the store is the decoded file, or empty when the file is missing or does not decode |
| AnalysisStore.AnalysisStore.StoreAnalysis | src/memory/analysis_store.py:25-61 | the project's list gains one entry carrying `total_issues`, `files_analyzed` and the results, is trimmed to the ten latest when it grows past ten, and every other project's list is unchanged |
| AnalysisStore.AnalysisStore.GetAnalysis | src/memory/analysis_store.py:63-91 | `None` exactly for an unknown project or an index past the end; otherwise the entry at that index of the project's entries sorted latest first (stable, as `sorted(..., reverse=True)`), at index 0 the latest one |
| AnalysisStore.SortedRank | src/memory/analysis_store.py:84-91 | the entry at index `i` of the list sorted latest first has at most `i` entries of the project later than it and at least `i + 1` at least as late, so it holds the rank the index asks for |
| AnalysisStore.CountsPermutation | src/memory/analysis_store.py:84-85 | sorting does not change how many entries are later than, or at least as late as, a given time |
| AnalysisStore.AnalysisStore.GetLatestAnalysis | src/memory/analysis_store.py:93-103 | `None` exactly when the project has no entries; otherwise one of its entries with no later entry beside it |
| AnalysisStore.AnalysisStore.ListAnalyses | src/memory/analysis_store.py:105-130 | the nested loops and the sort give one summary for every stored entry of every project, latest first |
| AnalysisStore.AnalysisStore.AppendSummaries | src/memory/analysis_store.py:118-125 | the inner loop appends, after what was collected, one summary per entry of the project, in the entries' order |
| IssuePatterns.LastNonNewline | src/analyzer/code_analyzer.py:234-240 | the last character of a range that is not a newline, every later one being a newline |
| IssuePatterns.Tail | src/analyzer/code_analyzer.py:234-240 | the tail `\s*(.+?)` followed by a newline or the end captures a non-empty group without a newline, ending at a newline or at the end of the text; the group starts at the first non-space when there is one; no match exactly when only newlines remain |
| IssuePatterns.WithTail | src/analyzer/code_analyzer.py:234-240 | a match built from a tail ends after its head and carries the head's line number |
| IssuePatterns.KeywordAt | src/analyzer/code_analyzer.py:234 | which of Issue, Problem, Bug, Error or Warning occurs at a position, or that none does |
| IssuePatterns.LineWordEnd | src/analyzer/code_analyzer.py:235 | the word Line or Lines is followed by the whitespace `\s+` needs |
| IssuePatterns.LineNumberAt | src/analyzer/code_analyzer.py:235 | a LineNumber match captures a line number of the form `n` or `n-m` |
| IssuePatterns.MatchAt | src/analyzer/code_analyzer.py:232-244 | a match ends after its start, and carries a line number exactly for the LineNumber pattern, always an `n` or `n-m` range |
| IssuePatterns.Scan | src/analyzer/code_analyzer.py:243-245 | every match `re.finditer` yields carries a line number exactly for the LineNumber pattern, always a range |
| IssuePatterns.TailOfOneLine | src/analyzer/code_analyzer.py:234-240 | after a space, a one-line description is captured whole |
| IssuePatterns.LineNumberOfLine | src/analyzer/code_analyzer.py:235 | `Line <n>: <d>` is read as line number `n` with description `d` |
| IssuePatterns.IssueKeywordOfLine | src/analyzer/code_analyzer.py:234 | `Issue #<n>: <d>` is read as description `d` without a line number |
| IssuePatterns.DashBulletOfLine | src/analyzer/code_analyzer.py:240 | `- <d>` is read as a dash bullet with description `d` |
| CodeAnalyzer.IssuesOf | src/analyzer/code_analyzer.py:245-253 | one candidate issue per match |
| CodeAnalyzer.NonEmptyStrippedAre | src/analyzer/code_analyzer.py:272 | the stripped lines kept are exactly the non-empty strips of the text's lines |
| CodeAnalyzer.FallbackIssuesAre | src/analyzer/code_analyzer.py:273-279 | the fallback issues are exactly the qualifying lines (over 20 characters, not a heading, not a fence), without line number and not fixed |
| CodeAnalyzer.KeepProperties | src/analyzer/code_analyzer.py:257-267 | keeping one candidate preserves long and distinct descriptions, and a known description adds nothing |
| CodeAnalyzer.AbsorbShape | src/analyzer/code_analyzer.py:243-267 | the pattern stage only appends: earlier issues stay in front, descriptions stay long and distinct, and the additions are a subsequence of the candidates |
| CodeAnalyzer.AbsorbCovers | src/analyzer/code_analyzer.py:257-267 | every candidate description of at least ten characters ends up among the issues |
| CodeAnalyzer.AbsorbFirst | src/analyzer/code_analyzer.py:261-267 | each issue the stage adds is the first candidate with its description, which was new |
| CodeAnalyzer.AbsorbAppend | src/analyzer/code_analyzer.py:243-245 | running the stage over two lists of candidates is running it over the first and then the second |
| CodeAnalyzer.CandidateLineNumbers | src/analyzer/code_analyzer.py:246-253 | candidates are not fixed; only LineNumber candidates carry a line number, always an `n` or `n-m` range |
| CodeAnalyzer.ExtractedIssuesProperties | src/analyzer/code_analyzer.py:216-281 | no issues for a missing or empty text; no issue is fixed and line numbers are ranges; when a match has a description of ten characters or more, exactly the pattern stage (long distinct descriptions, one per long match description, the first match with it, in match order); otherwise, in a text mentioning "issue", exactly the qualifying stripped lines; otherwise none |
| CodeAnalyzer.ExtractedIssues | src/analyzer/code_analyzer.py:216-281 | the issues `_extract_issues` returns, whose properties `ExtractedIssuesProperties` states |
| CodeAnalyzer.FallbackLines | src/analyzer/code_analyzer.py:271-279 | the fallback over a text gives exactly the qualifying strips of its lines |
| CodeAnalyzer.AddIssue | src/analyzer/code_analyzer.py:257-267 | a candidate is appended exactly when its description is long enough and new |
| CodeAnalyzer.AbsorbMatches | src/analyzer/code_analyzer.py:244-267 | the loop over one pattern's matches is the pattern stage over its candidates |
| CodeAnalyzer.NextMatch | src/analyzer/code_analyzer.py:246 | one step of `re.finditer`: the match at the position, if any, comes first in the scan and the scan resumes after it (or one character on) |
| CodeAnalyzer.StrippedLines | src/analyzer/code_analyzer.py:272 | the comprehension's non-empty stripped lines, in order |
| CodeAnalyzer.Fallback | src/analyzer/code_analyzer.py:273-279 | the fallback loop, one issue per qualifying line |
| CodeAnalyzer.ExtractIssues | src/analyzer/code_analyzer.py:216-281 | the loops compute the issues `ExtractedIssuesProperties` characterises |
| CodeAnalyzer.BoundaryFrom | src/analyzer/code_analyzer.py:169 | the first line boundary `splitlines` breaks at, at or after a position |
| CodeAnalyzer.LinesShift | src/analyzer/code_analyzer.py:169 | counting lines from inside a text does not depend on what precedes |
| CodeAnalyzer.LineCountOfLines | src/analyzer/code_analyzer.py:169-180 | lines without breaks, the last non-empty, joined with newlines count as exactly that many lines |
| CodeAnalyzer.AnalysisOfIssues | src/analyzer/code_analyzer.py:192-212 | the analysis record lists the standard, security and performance issues in that order and counts them |
| CodeAnalyzer.FreshAnalysisOfPasses | src/analyzer/code_analyzer.py:159-212 | a fresh analysis is built from the answers of the passes the line count selects |
| CodeAnalyzer.FreshAnalysisProperties | src/analyzer/code_analyzer.py:144-214 | the security pass runs if and only if the file has more than 20 lines, the performance pass if and only if more than 50; the issues are the standard, security and performance issues in order, none fixed; the issue count is their number; the tokens are the sum over the passes that ran |
| CodeAnalyzer.Values | src/analyzer/code_analyzer.py:321-325 | one analysis per key of the dict |
| CodeAnalyzer.Tally | src/analyzer/code_analyzer.py:330-335 | the frequency dict is well formed |
| CodeAnalyzer.TallyCounts | src/analyzer/code_analyzer.py:330-335 | the frequency dict has a key exactly for each truncated description that occurs, counting its occurrences exactly |
| CodeAnalyzer.PairsDistinct | src/analyzer/code_analyzer.py:338 | the frequency items name no description twice |
| CodeAnalyzer.SortedPairs | src/analyzer/code_analyzer.py:338 | the sorted items carry exact counts of at least one, cover every description that occurs, and repeat none |
| CodeAnalyzer.RankedPrefix | src/analyzer/code_analyzer.py:338 | any prefix of the sorted items is a ranking, and something left out means the prefix was cut short |
| CodeAnalyzer.TopIssuesProperties | src/analyzer/code_analyzer.py:330-338 | at most ten top issues, by non-increasing count, no description twice, each with its exact number of occurrences; a description that occurs but is left out means ten were kept, none less frequent than it |
| CodeAnalyzer.TopIssues | src/analyzer/code_analyzer.py:330-338 | the ten most frequent truncated descriptions, whose properties `TopIssuesProperties` states |
| CodeAnalyzer.SeparatorAt | src/analyzer/code_analyzer.py:385 | a match of `\n\s*\d+\.\s+` is not empty |
| CodeAnalyzer.Pieces | src/analyzer/code_analyzer.py:385 | `re.split` always returns at least one piece |
| CodeAnalyzer.RecommendationOf | src/analyzer/code_analyzer.py:391-400 | a parsed recommendation is not implemented |
| CodeAnalyzer.RecommendationOfLines | src/analyzer/code_analyzer.py:392-394 | the title is the first line of the stripped section, the description the remaining lines joined back, both stripped |
| CodeAnalyzer.Relabelled | src/analyzer/code_analyzer.py:388 | the k-th section after the intro is prefixed "k. " |
| CodeAnalyzer.Parsed | src/analyzer/code_analyzer.py:390-400 | one recommendation per section |
| CodeAnalyzer.ParsedAt | src/analyzer/code_analyzer.py:390-400 | the k-th recommendation is parsed from the k-th section |
| CodeAnalyzer.PiecesClean | src/analyzer/code_analyzer.py:385 | no piece of the split holds a separator |
| CodeAnalyzer.NumberedTitle | src/analyzer/code_analyzer.py:388-393 | the title of the section numbered n starts with "n." |
| CodeAnalyzer.GrowthRecommendationsProperties | src/analyzer/code_analyzer.py:381-402 | none is implemented; with separators, one recommendation per numbered section, the k-th parsed from that section labelled "k. ", the intro dropped; without, the whole reply is the single recommendation |
| CodeAnalyzer.GrowthRecommendations | src/analyzer/code_analyzer.py:381-402 | the recommendations parsed from the reply, whose properties `GrowthRecommendationsProperties` states |
| CodeAnalyzer.SectionsClean | src/analyzer/code_analyzer.py:385 | no section holds a separator |
| CodeAnalyzer.SeparatorSplits | src/analyzer/code_analyzer.py:385-386 | a separator anywhere gives at least two sections |
| CodeAnalyzer.SectionsIff | src/analyzer/code_analyzer.py:385-390 | there are several sections if and only if the reply holds a separator; otherwise the reply is the only section |
| CodeAnalyzer.Tagged | src/analyzer/code_analyzer.py:425-426 | one tagged issue per issue |
| CodeAnalyzer.TaggedMembers | src/analyzer/code_analyzer.py:425-427 | the tagged issues are exactly the issues, each with the given file |
| CodeAnalyzer.SecurityRelatedMembers | src/analyzer/code_analyzer.py:434-436 | the filter keeps exactly the issues whose lower-cased description holds a security term |
| CodeAnalyzer.DedicatedMembers | src/analyzer/code_analyzer.py:420-427 | every dedicated issue was extracted from the security pass of some analysis and names its file |
| CodeAnalyzer.MentioningMembers | src/analyzer/code_analyzer.py:431-439 | the fallback takes exactly the stored issues that mention a security term, each with its file |
| CodeAnalyzer.SecurityIssuesProperties | src/analyzer/code_analyzer.py:419-439 | the overview is asked about the issues of the security passes when there are any, and otherwise exactly about the stored issues that mention a security term |
| CodeAnalyzer.SecurityIssues | src/analyzer/code_analyzer.py:419-439 | the issues the security overview is asked about, whose properties `SecurityIssuesProperties` states |
| CodeAnalyzer.CollectIssues | src/analyzer/code_analyzer.py:324-327 | the loop gathers the issues of every analysis that lists them, in order |
| CodeAnalyzer.CountFrequencies | src/analyzer/code_analyzer.py:330-335 | the loop builds the frequency dict `TallyCounts` characterises |
| CodeAnalyzer.ParseRecommendations | src/analyzer/code_analyzer.py:381-402 | the parsing gives the recommendations `GrowthRecommendationsProperties` characterises |
| CodeAnalyzer.ParseSections | src/analyzer/code_analyzer.py:390-400 | the loop parses every section in order |
| CodeAnalyzer.Tag | src/analyzer/code_analyzer.py:425-426 | the loop tags every issue with its file |
| CodeAnalyzer.DedicatedOf | src/analyzer/code_analyzer.py:422-427 | the issues of one analysis's non-empty security pass, tagged with its file |
| CodeAnalyzer.CollectDedicated | src/analyzer/code_analyzer.py:420-427 | the first collecting loop |
| CodeAnalyzer.FilterSecurityRelated | src/analyzer/code_analyzer.py:434-436 | the loop keeps the security-related issues in order |
| CodeAnalyzer.CollectMentioning | src/analyzer/code_analyzer.py:431-439 | the fallback collecting loop |
| CodeAnalyzer.CollectSecurityIssues | src/analyzer/code_analyzer.py:419-439 | the issues `SecurityIssuesProperties` characterises |
| CodeAnalyzer.StepOf | src/analyzer/code_analyzer.py:79-107 | a file taken in keeps its path; a file not analysed afresh reuses its stored analysis and makes no request |
| CodeAnalyzer.Taken | src/analyzer/code_analyzer.py:82-83 | a file is taken in at most once |
| CodeAnalyzer.AnalysesOf | src/analyzer/code_analyzer.py:107 | the result dict is well formed |
| CodeAnalyzer.StepAnalyses | src/analyzer/code_analyzer.py:107 | one analysis per file taken in, in order |
| CodeAnalyzer.ProcessFirst | src/analyzer/code_analyzer.py:76-107 | the loop takes the first file and the others from the stored analyses that step left |
| CodeAnalyzer.StepOfLocal | src/analyzer/code_analyzer.py:86-100 | what happens to a file depends on the stored analyses only through its own entry |
| CodeAnalyzer.ProcessPlanned | src/analyzer/code_analyzer.py:76-107 | over distinct files, storing a fresh analysis never changes what happens to another file |
| CodeAnalyzer.ProcessStores | src/analyzer/code_analyzer.py:96-100 | over distinct files, every fresh analysis is stored under its path and every other entry stays as it was |
| CodeAnalyzer.PlannedPaths | src/analyzer/code_analyzer.py:76-107 | over distinct files, the files taken in are distinct files of the list |
| CodeAnalyzer.AnalysesOfDistinct | src/analyzer/code_analyzer.py:107 | with distinct paths, `file_analyses` lists the files taken in, in order, each with its analysis |
| CodeAnalyzer.ReportTotals | src/analyzer/code_analyzer.py:62-110 | `files_analyzed` is the number of code files, skipped or not; `file_analyses` holds one entry per file taken in, all among the code files; `total_issues` is the issue count summed over `file_analyses` |
| CodeAnalyzer.CodeAnalyzer.constructor | src/analyzer/code_analyzer.py:21-37 | the counters start at zero and the collaborators are those given |
| CodeAnalyzer.CodeAnalyzer.AnalyzeFile | src/analyzer/code_analyzer.py:144-214 | the analysis is the fresh analysis of the file; its tokens are added to the analyzer's and the backend's totals |
| CodeAnalyzer.BuildAnalysis | src/analyzer/code_analyzer.py:192-212 | the record of a file holds the issues of the three passes, extracted in turn, and the sum of the tokens the passes spent |
| CodeAnalyzer.CodeAnalyzer.RunPass | src/analyzer/code_analyzer.py:167-187 | a pass is requested only when its condition holds, and then its answer and tokens are those of the backend |
| CodeAnalyzer.CodeAnalyzer.TakeIn | src/analyzer/code_analyzer.py:79-107 | one turn of the loop: the file is skipped, its stored analysis reused, or a fresh one stored under its path; the other context maps are untouched |
| CodeAnalyzer.CodeAnalyzer.AnalyzeDirectory | src/analyzer/code_analyzer.py:39-142 | without code files, no report and nothing changes but the reset counters; otherwise every file is taken in, the stored analyses become those the loop leaves, the report counts issues, files and tokens consistently with the backend's totals, and the history gains the report, trimmed |
| CodeAnalyzer.CodeAnalyzer.Advance | src/analyzer/code_analyzer.py:101-107 | the bookkeeping after one turn of the loop: the result dict gains the file's analysis and the counters grow by what the step counted and spent, so the run stays the one the steps describe |
| CodeAnalyzer.CodeAnalyzer.TakeInAll | src/analyzer/code_analyzer.py:76-107 | the loop takes every file in, in order, and leaves the stored analyses the loop function gives |
| CodeAnalyzer.CodeAnalyzer.Report | src/analyzer/code_analyzer.py:109-131 | the three project-level requests are made and the report records their answers and the totals |
| CodeAnalyzer.CodeAnalyzer.GenerateProjectAnalysis | src/analyzer/code_analyzer.py:303-352 | one request about the file count, the issue count and the top issues; its text is returned and its tokens counted |
| CodeAnalyzer.CodeAnalyzer.GenerateGrowthRecommendations | src/analyzer/code_analyzer.py:354-402 | one request, whose text is parsed into recommendations and whose tokens are counted |
| CodeAnalyzer.CodeAnalyzer.GenerateSecurityOverview | src/analyzer/code_analyzer.py:404-450 | one request about the collected security issues; its text is returned and its tokens counted |
| EnhancedAnalyzer.AnyWordAtIff | src/analyzer/enhanced_analyzer.py:288-304 | the alternation of keywords tried at one position succeeds exactly when one of the keywords occurs there as a whole word |
| EnhancedAnalyzer.SearchFromIff | src/analyzer/enhanced_analyzer.py:288-304 | the `re.search` scan from a position succeeds exactly when some keyword occurs as a whole word at or after it |
| EnhancedAnalyzer.SearchIff | src/analyzer/enhanced_analyzer.py:288-304 | searching a title for `\b(word1 or word2 ...)\b` finds a match exactly when one of the words occurs as a whole word |
| EnhancedAnalyzer.SeverityOfWords | src/analyzer/enhanced_analyzer.py:286-293 | an issue is critical exactly when its lower-cased title holds a critical keyword, major exactly when it holds no critical but a major keyword, minor otherwise; the severity is never "info" |
| EnhancedAnalyzer.SeverityOf | src/analyzer/enhanced_analyzer.py:286-293 | the ordered severity tests, whose outcome `SeverityOfWords` states |
| EnhancedAnalyzer.Key | src/analyzer/enhanced_analyzer.py:347-351 | the dictionary key a value is counted under, `True` and `1` being one key |
| EnhancedAnalyzer.CacheKey | src/analyzer/enhanced_analyzer.py:92 | the cache key of a file: its path, the analysis type, the minimum issue count and the content hash, joined by colons |
| EnhancedAnalyzer.TypeOfWords | src/analyzer/enhanced_analyzer.py:295-304 | the issue type is the first of security, performance, maintainability, bug whose keywords occur as whole words in the title, and general when none does |
| EnhancedAnalyzer.TypeOf | src/analyzer/enhanced_analyzer.py:295-304 | the ordered type tests over the lower-cased title |
| EnhancedAnalyzer.SkipChar | src/analyzer/enhanced_analyzer.py:274 | a greedy run of one character: every character skipped is that character and the next one is not |
| EnhancedAnalyzer.DigitRun | src/analyzer/enhanced_analyzer.py:274 | the `\d+` run captured for an issue number or line is all digits |
| EnhancedAnalyzer.StopAt | src/analyzer/enhanced_analyzer.py:274 | where the lookahead `(?=\n#+\s*Issue or \n#+\s*[^I] or $)` that ends an issue body holds |
| EnhancedAnalyzer.LazyEnd | src/analyzer/enhanced_analyzer.py:274 | the lazy body `(.*?)` ends at the first position after its start where the lookahead holds, and at no earlier one |
| EnhancedAnalyzer.AfterColon | src/analyzer/enhanced_analyzer.py:274 | `\s*:?\s*` never moves backwards nor past the text |
| EnhancedAnalyzer.HeadingWord | src/analyzer/enhanced_analyzer.py:274 | a heading prefix `#+\s*` consumes at least its first `#` and stays inside the text |
| EnhancedAnalyzer.LineRange | src/analyzer/enhanced_analyzer.py:274 | the optional line range `(Line a-b)` either ends after its `)` or is skipped; an end line is captured only with a start line |
| EnhancedAnalyzer.IssueHeadAt | src/analyzer/enhanced_analyzer.py:274 | an issue heading matched at a position has its body start after that position and inside the text, and an end line only with a start line |
| EnhancedAnalyzer.TitleAndDescription | src/analyzer/enhanced_analyzer.py:282-284 | the title taken from a stripped body never holds a newline |
| EnhancedAnalyzer.TitleAndDescriptionLines | src/analyzer/enhanced_analyzer.py:282-284 | the title is the first line of the stripped body and the description the stripped remaining lines, "" when there is only one line |
| EnhancedAnalyzer.IssueMatchesSkip | src/analyzer/enhanced_analyzer.py:275 | where no issue heading matches, `finditer` resumes one position later |
| EnhancedAnalyzer.IssueMatchesStep | src/analyzer/enhanced_analyzer.py:275 | after an issue match `finditer` resumes where the match's lazy body ended |
| EnhancedAnalyzer.IssueMatchesPlaced | src/analyzer/enhanced_analyzer.py:275 | every issue match lies inside the text after its scan start, body start before body end, and a heading without a start line has no end line |
| EnhancedAnalyzer.IssueAtShape | src/analyzer/enhanced_analyzer.py:276-315 | a parsed issue's title is one line, and it has a line end exactly when it has a line start (`line_end` defaults to `line_start`) |
| EnhancedAnalyzer.Issues | src/analyzer/enhanced_analyzer.py:273-317 | one parsed issue per heading match, in order |
| EnhancedAnalyzer.IssuesShape | src/analyzer/enhanced_analyzer.py:276-315 | every parsed issue has a one-line title, and a line end exactly when it has a line start |
| EnhancedAnalyzer.SuggestionHeadAt | src/analyzer/enhanced_analyzer.py:320 | a suggestion heading matched at a position has its body start after it and inside the text |
| EnhancedAnalyzer.SuggestionAt | src/analyzer/enhanced_analyzer.py:322-330 | an unnumbered suggestion takes the number one more than the count of suggestions before it |
| EnhancedAnalyzer.SuggestionMatchesPlaced | src/analyzer/enhanced_analyzer.py:320-321 | every suggestion match lies inside the text after its scan start, body start before body end |
| EnhancedAnalyzer.LastNewline | src/analyzer/enhanced_analyzer.py:269 | the last newline of a range, no newline after it in the range; None exactly when the range holds no newline |
| EnhancedAnalyzer.SummaryHeadAt | src/analyzer/enhanced_analyzer.py:269 | a summary heading matched at a position has its body start after it and inside the text |
| EnhancedAnalyzer.SummaryOf | src/analyzer/enhanced_analyzer.py:268-271 | the summary (`Summary`, the search from position 0) is "" exactly when no `#+\s*Summary\s*\n+` heading occurs anywhere in the text; otherwise it is the stripped body of the first such heading, with no heading before it |
| EnhancedAnalyzer.SummaryFromNext | src/analyzer/enhanced_analyzer.py:269-271 | `re.search` from a position gives the stripped body of the next summary heading, or "" when there is none |
| EnhancedAnalyzer.NextSummaryHead | src/analyzer/enhanced_analyzer.py:269 | the next position from `i` where a summary heading matches lies inside the text and a heading matches there |
| EnhancedAnalyzer.NextSummaryHeadSkips | src/analyzer/enhanced_analyzer.py:269 | every position from `i` before the next summary heading found (or before the end, when none is) matches no summary heading |
| EnhancedAnalyzer.NextSummaryHeadFirst | src/analyzer/enhanced_analyzer.py:269 | no summary heading matches between `i` and the next one found |
| EnhancedAnalyzer.NextSummaryHeadNone | src/analyzer/enhanced_analyzer.py:269-270 | when none is found, no summary heading matches anywhere from `i` on |
| EnhancedAnalyzer.IssuesJson | src/analyzer/enhanced_analyzer.py:306-315 | one issue dict per parsed issue, in order |
| EnhancedAnalyzer.SuggestionsJson | src/analyzer/enhanced_analyzer.py:324-328 | one suggestion dict per parsed suggestion, in order |
| EnhancedAnalyzer.WithDefaults | src/analyzer/enhanced_analyzer.py:249-252 | the decoded object keeps every key and value, gains "summary" (the placeholder) and "issues" (an empty list) only where missing, and nothing else |
| EnhancedAnalyzer.StructureOfJson | src/analyzer/enhanced_analyzer.py:243-254 | text that looks like a JSON object and decodes gives the decoded object with every key kept and at most "summary" and "issues" added |
| EnhancedAnalyzer.StructureOfText | src/analyzer/enhanced_analyzer.py:259-332 | otherwise the result has exactly the keys file_path, language, summary, issues and suggestions, with one issue per issue heading and one suggestion per suggestion heading |
| EnhancedAnalyzer.Structure | src/analyzer/enhanced_analyzer.py:225-332 | the decoded object with defaults when the text looks like JSON and decodes, otherwise the text path; `StructureOfJson` and `StructureOfText` state its properties |
| EnhancedAnalyzer.TextResult | src/analyzer/enhanced_analyzer.py:259-332 | the result of the text path, whose keys and issues `StructureOfText` states |
| EnhancedAnalyzer.IssueBodyEmptyOnlyAtEnd | src/analyzer/enhanced_analyzer.py:274-284 | an issue body is empty only when the heading ends the text |
| EnhancedAnalyzer.BareHeadingSwallowsNext | src/analyzer/enhanced_analyzer.py:274-284 | a bare `## Issue #1` heading takes the next line as its title, so an issue heading on that line is lost |
| EnhancedAnalyzer.ParseIssues | src/analyzer/enhanced_analyzer.py:273-317 | the loop over the issue matches yields exactly the issues the text describes |
| EnhancedAnalyzer.NextIssue | src/analyzer/enhanced_analyzer.py:275 | one step of `re.finditer` over issue headings: the match at the position, if any, comes first and the scan resumes after it (or one character on) |
| EnhancedAnalyzer.ParseSuggestions | src/analyzer/enhanced_analyzer.py:319-330 | the loop over the suggestion matches yields exactly the suggestions the text describes, unnumbered ones numbered by position |
| EnhancedAnalyzer.SuggestionMatchesSkip | src/analyzer/enhanced_analyzer.py:321 | where no suggestion heading starts, the scan moves on one character |
| EnhancedAnalyzer.SuggestionMatchesStep | src/analyzer/enhanced_analyzer.py:320-321 | a suggestion heading yields the match whose body runs to the first place the lookahead holds, and the scan resumes there |
| EnhancedAnalyzer.StructureAnalysisResult | src/analyzer/enhanced_analyzer.py:225-332 | `_structure_analysis_result` computes the structured result (JSON path or text path) |
| EnhancedAnalyzer.AddDefaults | src/analyzer/enhanced_analyzer.py:248-253 | decoded JSON gets "summary" and "issues" only where they are missing |
| EnhancedAnalyzer.TextStructure | src/analyzer/enhanced_analyzer.py:259-332 | the text path builds the five keys from the summary, the parsed issues and the parsed suggestions |
| EnhancedAnalyzer.Section | src/analyzer/enhanced_analyzer.py:378-425 | an unknown section gives "Unknown section: " and its name; a missing or empty issues or suggestions list gives its placeholder; None where the source raises |
| EnhancedAnalyzer.LocationOfParsed | src/analyzer/enhanced_analyzer.py:399-404 | the location printed for a parsed issue: " (Lines a-b)" for a distinct non-zero end, " (Line a)" for a non-zero start, nothing otherwise |
| EnhancedAnalyzer.IssueBlockOfParsed | src/analyzer/enhanced_analyzer.py:396-409 | formatting a parsed issue never raises and gives its four lines |
| EnhancedAnalyzer.BlocksOfParsed | src/analyzer/enhanced_analyzer.py:394-411 | formatting a list of parsed issues never raises and gives their blocks in order |
| EnhancedAnalyzer.TextIssuesSection | src/analyzer/enhanced_analyzer.py:392-411 | the issues section of a text-path result never raises: "No issues found" with no parsed issue, else the blocks joined by newlines |
| EnhancedAnalyzer.ExtractSection | src/analyzer/enhanced_analyzer.py:378-425 | `extract_section`'s loops produce exactly the section text, or None where the source raises |
| EnhancedAnalyzer.BlocksNone | src/analyzer/enhanced_analyzer.py:394-423 | once one item of a list raises, formatting the whole list raises |
| EnhancedAnalyzer.Reset | src/analyzer/enhanced_analyzer.py:353-360 | the counters after a reset: no issues, files or tokens, no types, and the four severities critical, major, minor, info at zero |
| EnhancedAnalyzer.Bump | src/analyzer/enhanced_analyzer.py:345-351 | `d[k] = d.get(k, 0) + 1` keeps a well-formed dict |
| EnhancedAnalyzer.CountIssue | src/analyzer/enhanced_analyzer.py:346-351 | one turn of the loop goes through exactly when the issue is a dict whose type and severity are hashable, and then bumps both counts; a turn that raises has left the severity counts alone |
| EnhancedAnalyzer.Tally | src/analyzer/enhanced_analyzer.py:345-351 | the loop over the issues touches only the two breakdowns |
| EnhancedAnalyzer.Counted | src/analyzer/enhanced_analyzer.py:334-351 | `_update_statistics` leaves the file and token counts alone |
| EnhancedAnalyzer.TotalUpdate | src/analyzer/enhanced_analyzer.py:345-351 | setting one count changes the sum of the counts by the difference, or not at all for a new key |
| EnhancedAnalyzer.BumpSum | src/analyzer/enhanced_analyzer.py:345-351 | counting one more occurrence of a key adds one to the sum of the counts |
| EnhancedAnalyzer.TallySums | src/analyzer/enhanced_analyzer.py:345-351 | a loop that completes adds the number of issues to the sum of each breakdown |
| EnhancedAnalyzer.CountedBalanced | src/analyzer/enhanced_analyzer.py:334-351 | when `_update_statistics` completes, the sums of the type and severity breakdowns still equal the issue count |
| EnhancedAnalyzer.ResetBalanced | src/analyzer/enhanced_analyzer.py:353-360 | the reset counters are balanced |
| EnhancedAnalyzer.TotalZero | src/analyzer/enhanced_analyzer.py:358-360 | counts that are all zero sum to zero |
| EnhancedAnalyzer.TallyCounts | src/analyzer/enhanced_analyzer.py:345-351 | after a complete loop each type and severity count has grown by the number of issues with that type or severity |
| EnhancedAnalyzer.TallyStep | src/analyzer/enhanced_analyzer.py:345-351 | one countable issue bumps its type then its severity before the rest of the loop |
| EnhancedAnalyzer.TallyCountable | src/analyzer/enhanced_analyzer.py:345-351 | a loop over countable issues never raises and counts none of them as "info" |
| EnhancedAnalyzer.TextResultCounted | src/analyzer/enhanced_analyzer.py:334-351 | counting a text-path result never raises, adds the number of parsed issues, and leaves the "info" count as it was |
| EnhancedAnalyzer.IssuesCountable | src/analyzer/enhanced_analyzer.py:286-315 | parsed issues are dicts with text type and severity, never "info" |
| EnhancedAnalyzer.CountedList | src/analyzer/enhanced_analyzer.py:343-351 | with a list of issues, `len(issues)` is added first and then the loop runs |
| EnhancedAnalyzer.FileStep | src/analyzer/enhanced_analyzer.py:86-159 | one iteration of the loop over the files keeps the run well-formed |
| EnhancedAnalyzer.Charged | src/analyzer/enhanced_analyzer.py:128-129 | one more file analysed and its tokens added, the issue counters unchanged |
| EnhancedAnalyzer.FileStepEffects | src/analyzer/enhanced_analyzer.py:91-159 | a cache hit records the cached result without analysing; an unknown language changes nothing; otherwise the file is counted, cached and recorded; the cache only grows |
| EnhancedAnalyzer.DirectoryRun | src/analyzer/enhanced_analyzer.py:86-159 | the loop over the files, up to the first that raises, keeps the run well-formed |
| EnhancedAnalyzer.FileStepHit | src/analyzer/enhanced_analyzer.py:95-99 | a cache hit records the cached result and counts its issues again |
| EnhancedAnalyzer.FileStepFresh | src/analyzer/enhanced_analyzer.py:115-156 | a fresh analysis is charged, counted, cached and recorded, and raises exactly when a context or store is attached or counting raises |
| EnhancedAnalyzer.FileStepBalanced | src/analyzer/enhanced_analyzer.py:86-159 | a file step that does not raise keeps the counters balanced |
| EnhancedAnalyzer.DirectoryRunBalanced | src/analyzer/enhanced_analyzer.py:68-159 | a run that completes leaves the type and severity sums equal to the issue count |
| EnhancedAnalyzer.DirectoryRunCaches | src/analyzer/enhanced_analyzer.py:91-132 | a run that completes has cached every file of known language and kept every earlier cache entry |
| EnhancedAnalyzer.CachedRunAnalysesNothing | src/analyzer/enhanced_analyzer.py:95-107 | with the cache on and every file cached or of unknown language, no file is analysed, no token spent, and the cache is unchanged |
| EnhancedAnalyzer.RerunUsesCache | src/analyzer/enhanced_analyzer.py:47-166 | running the same files again with the cache a completed run left analyses nothing: file and token counts stay zero |
| EnhancedAnalyzer.DirectoryRunStep | src/analyzer/enhanced_analyzer.py:86-159 | the loop after one more file is the loop up to it followed by that file's step |
| EnhancedAnalyzer.EnhancedAnalyzer.Statistics | src/analyzer/enhanced_analyzer.py:362-376 | the counters `get_analysis_summary` reports, well-formed while the analyzer is |
| EnhancedAnalyzer.EnhancedAnalyzer.constructor | src/analyzer/enhanced_analyzer.py:24-45 | a new analyzer has reset counters and an empty cache |
| EnhancedAnalyzer.EnhancedAnalyzer.ResetStatistics | src/analyzer/enhanced_analyzer.py:353-360 | the counters start over and the cache is kept |
| EnhancedAnalyzer.EnhancedAnalyzer.UpdateStatistics | src/analyzer/enhanced_analyzer.py:334-351 | the new counters, and whether it raised, are as `Counted` says; the cache is kept |
| EnhancedAnalyzer.CountedIssues | src/analyzer/enhanced_analyzer.py:341-351 | counting never changes the file or token counters and keeps the type and severity dicts well formed |
| EnhancedAnalyzer.EnhancedAnalyzer.CountList | src/analyzer/enhanced_analyzer.py:341-351 | a list of issues adds its length to the count, then each issue is tallied as `Tally` says |
| EnhancedAnalyzer.EnhancedAnalyzer.TallyIssues | src/analyzer/enhanced_analyzer.py:345-351 | the loop over the issues bumps the type and severity counts as `Tally` says, stopping where the source raises |
| EnhancedAnalyzer.EnhancedAnalyzer.AnalyzeFile | src/analyzer/enhanced_analyzer.py:168-223 | an error result for an unreadable file or unknown language; otherwise the structured reply, counted as one more file with its tokens; an attached context makes it raise |
| EnhancedAnalyzer.EnhancedAnalyzer.Record | src/analyzer/enhanced_analyzer.py:211-213 | one more file, its tokens, then the issues of its result are counted |
| EnhancedAnalyzer.EnhancedAnalyzer.AnalyzeDirectory | src/analyzer/enhanced_analyzer.py:47-166 | the counters are reset and the results, counters and cache are those of `DirectoryRun` over the listed files |
| EnhancedAnalyzer.EnhancedAnalyzer.AnalyzeListedFile | src/analyzer/enhanced_analyzer.py:88-159 | one loop body: the new counters, cache, results and raise flag are those of `FileStep` |
| EnhancedAnalyzer.EnhancedAnalyzer.ReuseCached | src/analyzer/enhanced_analyzer.py:95-99 | a cache hit records the cached result and counts it again, the cache unchanged |
| EnhancedAnalyzer.EnhancedAnalyzer.AnalyzeUncached | src/analyzer/enhanced_analyzer.py:115-156 | a fresh analysis is cached and recorded under its path and counted after the file and its tokens |
| CodeFixer.HeadingAt | src/fixer/code_fixer.py:141 | a `# File: <path>` heading matched at a position ends after it, inside the report, and carries no line number |
| CodeFixer.NextHeading | src/fixer/code_fixer.py:147-148 | a heading found lies inside the report and a heading matches at its position |
| CodeFixer.NextHeadingFirst | src/fixer/code_fixer.py:147-148 | no heading matches between the start of the search and the heading found |
| CodeFixer.NextHeadingNone | src/fixer/code_fixer.py:147-148 | when the search finds nothing, no heading matches anywhere from the start of the search to the end of the report |
| CodeFixer.Bullets | src/fixer/code_fixer.py:174 | the matches of the bullet pattern as written, whose properties `BulletsAsWrittenEveryOther` states |
| CodeFixer.SectionIssues | src/fixer/code_fixer.py:155-184 | the issues of one section, whose properties `ParseSection` and `LongBullets` state |
| CodeFixer.FileAnalyses | src/fixer/code_fixer.py:111-190 | the entries `_extract_file_analyses` returns, or None where it raises; `ExtractFileAnalyses` and `ListedIssues` are proved against it |
| CodeFixer.ListedIssues | src/fixer/code_fixer.py:124-134 | the loop over `file_analyses` raises exactly when some entry cannot be asked for its issues, and otherwise keeps exactly the entries that have them, with their issues |
| CodeFixer.SectionEnd | src/fixer/code_fixer.py:147-150 | a file's section ends at the next heading or at the end of the report, never before its start |
| CodeFixer.HeadingsInside | src/fixer/code_fixer.py:141-144 | every heading `finditer` finds lies inside the report, in order |
| CodeFixer.Groups | src/fixer/code_fixer.py:157-170 | the captured groups of the issue-line matches, in order |
| CodeFixer.IssueMatchesAreScan | src/fixer/code_fixer.py:157-158 | the fixer reads the same issue lines, in the same order, as the analyzer's issue pattern |
| CodeFixer.IssueMatchesInside | src/fixer/code_fixer.py:157-158 | every issue-line match lies inside the section, in order |
| CodeFixer.LineRangeAt | src/fixer/code_fixer.py:163-164 | a captured line group is a number or a range `a-b` |
| CodeFixer.FirstLineRange | src/fixer/code_fixer.py:163-164 | the first line group found in the matched text is a number or a range |
| CodeFixer.IssueFound | src/fixer/code_fixer.py:160-170 | an issue read from an issue line has that line's stripped text as description and is not fixed |
| CodeFixer.IssuesFound | src/fixer/code_fixer.py:157-170 | one issue per issue line |
| CodeFixer.BulletAt | src/fixer/code_fixer.py:173-174 | a bullet matched at a position ends after it and inside the section |
| CodeFixer.Substantial | src/fixer/code_fixer.py:176-184 | the bullets kept are at most as many as were found |
| CodeFixer.TailOfBulletLine | src/fixer/code_fixer.py:174 | the tail after a bullet's dash on a newline-ended line captures that line's text and ends after its newline |
| CodeFixer.BulletsSkipLine | src/fixer/code_fixer.py:174 | between newlines the bullet pattern as written finds nothing and resumes at the next newline |
| CodeFixer.BulletsAsWrittenEveryOther | src/fixer/code_fixer.py:174 | on any run of consecutive one-line dash bullets the pattern as written captures exactly every other line, starting with the first |
| CodeFixer.DashLineAt | src/fixer/code_fixer.py:174 | a line `- d` ended by a newline is one match of the corrected pattern, capturing d |
| CodeFixer.DashBulletsFindEach | src/fixer/code_fixer.py:174 | on any run of consecutive one-line dash bullets the corrected pattern captures every line, in order |
| CodeFixer.IssuesFoundStep | src/fixer/code_fixer.py:157-170 | one more issue line appends its issue |
| CodeFixer.SubstantialStep | src/fixer/code_fixer.py:176-184 | one more bullet appends its issue exactly when its stripped text is longer than 10 characters |
| CodeFixer.IssuesFoundAt | src/fixer/code_fixer.py:160-170 | the k-th issue is the one read from the k-th issue line |
| CodeFixer.SubstantialKept | src/fixer/code_fixer.py:176-184 | the bullets kept are exactly the long ones (over 10 characters), with no line number and not fixed |
| CodeFixer.SectionIssuesFrom | src/fixer/code_fixer.py:155-184 | a section's issues are its issue lines when it has any, else its long bullets; none is fixed |
| CodeFixer.IssueMatchesAdvance | src/fixer/code_fixer.py:157-158 | after an issue-line match `finditer` resumes at its end |
| CodeFixer.IssueMatchesSkip | src/fixer/code_fixer.py:157-158 | where no issue line matches `finditer` resumes one position later |
| CodeFixer.IssueMatchesDone | src/fixer/code_fixer.py:157-158 | at the end of the section every issue line has been found |
| CodeFixer.ScanAdvance | src/fixer/code_fixer.py:173-174 | after a bullet match `finditer` resumes at its end |
| CodeFixer.ScanSkip | src/fixer/code_fixer.py:173-174 | where no bullet matches `finditer` resumes one position later |
| CodeFixer.ScanDone | src/fixer/code_fixer.py:173-174 | at the end of the section every bullet has been found |
| CodeFixer.IssueLines | src/fixer/code_fixer.py:157-170 | the loop over the issue lines yields one issue per issue line, in order |
| CodeFixer.LongBullets | src/fixer/code_fixer.py:173-184 | the loop over the bullets yields exactly the long bullets, in order |
| CodeFixer.ParseSection | src/fixer/code_fixer.py:155-184 | the issues of one section, as `SectionIssues` states them |
| CodeFixer.IssueValues | src/fixer/code_fixer.py:187-188 | one issue dictionary per issue, in order |
| CodeFixer.Sections | src/fixer/code_fixer.py:141-184 | one (path, issues) pair per heading |
| CodeFixer.SectionsStep | src/fixer/code_fixer.py:141-184 | one more heading appends its stripped path and its section's issues |
| CodeFixer.Collect | src/fixer/code_fixer.py:186-188 | adding the sections keeps a well-formed dictionary |
| CodeFixer.CollectStep | src/fixer/code_fixer.py:186-188 | a section with issues sets its path's entry, one without leaves the dictionary as it was |
| CodeFixer.TextAnalyses | src/fixer/code_fixer.py:136-190 | the text branch returns a well-formed dictionary |
| CodeFixer.LastSet | src/fixer/code_fixer.py:186-188 | the last section that gives a path issues lies among the sections |
| CodeFixer.LastSetFacts | src/fixer/code_fixer.py:186-188 | that section gives the path issues and no later one does; None exactly when no section does |
| CodeFixer.CollectEntries | src/fixer/code_fixer.py:141-190 | a path is reported exactly when one of its sections has issues, with the issues of the last such section |
| CodeFixer.IssueValuesUnfixed | src/fixer/code_fixer.py:187-188 | issues none of which is fixed give dictionaries whose `fixed` is False |
| CodeFixer.TextAnalysesListed | src/fixer/code_fixer.py:136-190 | every entry of the text branch is a non-empty list of issue dictionaries, none fixed |
| CodeFixer.HeadingsAdvance | src/fixer/code_fixer.py:141-144 | after a heading `finditer` resumes at its end |
| CodeFixer.HeadingsSkip | src/fixer/code_fixer.py:141-144 | where no heading matches `finditer` resumes one position later |
| CodeFixer.HeadingsDone | src/fixer/code_fixer.py:141-144 | at the end of the report every heading has been found |
| CodeFixer.TextStep | src/fixer/code_fixer.py:141-188 | one more heading adds its section to the dictionary |
| CodeFixer.TextDone | src/fixer/code_fixer.py:141-190 | after the last heading the dictionary is the text branch's result |
| CodeFixer.AddSection | src/fixer/code_fixer.py:145-188 | one heading's section is added under its stripped path exactly when it has issues |
| CodeFixer.TextFileAnalyses | src/fixer/code_fixer.py:136-190 | the loop over the headings yields the text branch's result |
| CodeFixer.EntryOf | src/fixer/code_fixer.py:130-134 | an analysis is listed exactly when it is a dictionary holding "issues", with that value |
| CodeFixer.JsonAnalyses | src/fixer/code_fixer.py:124-134 | without a raise, a path is listed exactly when its analysis is a dictionary with "issues", with those issues; a report without "file_analyses" gives nothing |
| CodeFixer.JsonFileAnalyses | src/fixer/code_fixer.py:124-134 | the loop raises exactly when the JSON branch does, and otherwise yields its entries |
| CodeFixer.ExtractFileAnalyses | src/fixer/code_fixer.py:111-190 | `_extract_file_analyses` raises exactly when the branch taken does; a report that does not decode gives the text branch |
| CodeFixer.PyLen | src/fixer/code_fixer.py:239 | `len` is zero exactly for a falsy value, None where it raises |
| CodeFixer.Acceptable | src/fixer/code_fixer.py:227-236 | a rewrite is kept when it is not blank and validates for its language |
| CodeFixer.FixOutcome | src/fixer/code_fixer.py:192-241 | falsy issues change nothing; an accepted rewrite replaces the content and adds the number of issues; it raises exactly when an accepted rewrite meets issues without a length |
| CodeFixer.MarkingAfterPrompt | src/fixer/code_fixer.py:243-267 | issues that built the fix prompt are marked without a raise, each keeps its description, and the nested loop over the stored issues then cannot raise |
| CodeFixer.Fix | src/fixer/code_fixer.py:192-241 | the outcome of `_fix_file` for the model's rewrite, as `FixOutcome` states it |
| CodeFixer.FileFix | src/fixer/code_fixer.py:192-241 | `Fix` on the content and language of a readable file |
| CodeFixer.PathFix | src/fixer/code_fixer.py:56-80 | a missing or unreadable file gives nothing and no raise; a file outside the project raises; a rewrite is kept only for a present, readable file of the project that it changes, and a raise keeps no rewrite and counts no fixes |
| CodeFixer.NoFencePair | src/llm/llm_service.py:115-122 | a reply without a backtick has no pair of code fences |
| CodeFixer.TimeoutReplyAccepted | src/fixer/code_fixer.py:228-241 | for a language that is not checked and issues that build the fix prompt, the timeout message replaces the file and every issue counts as fixed |
| CodeFixer.MarkFixed | src/fixer/code_fixer.py:252-253 | the marking goes through exactly for a list of dictionaries (or an empty string or dictionary); each marked issue is the passed one with `fixed` set and nothing else changed |
| CodeFixer.Described | src/fixer/code_fixer.py:258-267 | the longest prefix of passed issues that have a description |
| CodeFixer.MarkStored | src/fixer/code_fixer.py:258-267 | marking keeps the number of stored issues |
| CodeFixer.MarkStoredSpec | src/fixer/code_fixer.py:258-267 | the nested loop raises exactly when there is a stored issue and a passed issue without description; otherwise a stored issue ends fixed exactly when it was or a passed issue has its description, nothing else changing |
| CodeFixer.Brief | src/fixer/code_fixer.py:270-273 | a description of at most 50 characters is shown whole; a longer one as its first 50 characters and "..." |
| CodeFixer.FixedNote | src/fixer/code_fixer.py:270-273 | the note is built exactly when every passed issue has a text description, and starts "Fixed issues: " |
| CodeFixer.StoredAfter | src/fixer/code_fixer.py:255-268 | an analysis is written back only when one was stored and is truthy, and only its issues change |
| CodeFixer.RewritesPut | src/fixer/code_fixer.py:56-80 | adding the rewrite of a listed, present, readable file of the project that changed keeps the collected rewrites consistent |
| CodeFixer.CodeFixer.constructor | src/fixer/code_fixer.py:20-32 | a new fixer holds its model service and project context, with both counters at zero |
| CodeFixer.CodeFixer.FixFile | src/fixer/code_fixer.py:192-241 | `_fix_file` returns the content, adds the fixes and raises as `Fix` states, with the file's stored context |
| CodeFixer.CodeFixer.Accept | src/fixer/code_fixer.py:228-241 | the checks on the model's rewrite give `FixOutcome` |
| CodeFixer.CodeFixer.MarkIssues | src/fixer/code_fixer.py:252-253 | the marking loop raises exactly when `MarkFixed` does, and otherwise yields its result |
| CodeFixer.CodeFixer.MarkStoredIssues | src/fixer/code_fixer.py:258-267 | the nested loop yields `MarkStored` |
| CodeFixer.CodeFixer.UpdateProjectContext | src/fixer/code_fixer.py:243-273 | the stored analyses, the notes and the raise are those `ContextUpdate` gives from the old ones: issues that cannot be marked raise with the context unchanged; otherwise the stored issues are marked and the analysis written back (also when the nested marking raises part-way), and the note is recorded exactly when nothing raised; the project-wide context is untouched |
| CodeFixer.CodeFixer.FixSingleFile | src/fixer/code_fixer.py:85-109 | an unreadable file gives None with the context unchanged; a fix that raises or leaves the file as it was leaves the context unchanged; a fix that changes the file updates the context as `ContextUpdate` states; a rewrite is returned only for a readable file it changed |
| CodeFixer.CodeFixer.FixPath | src/fixer/code_fixer.py:56-80 | the rewrite, the fixes counted and the raise are those `PathFix` gives for the entry with its file's stored note; the number of files fixed is unchanged |
| CodeFixer.CodeFixer.FixEntry | src/fixer/code_fixer.py:56-80 | one pass of the loop adds the planned rewrite of `PathFix` to the collected files, counts its fixes and the changed file, and raises when the plan does; without a rewrite the context is unchanged, with one it is updated as `ContextUpdate` states |
| CodeFixer.CodeFixer.RecordRewrite | src/fixer/code_fixer.py:74-80 | a rewrite that changed the file is collected under its path, counted once in `files_fixed`, and recorded in the project context as `ContextUpdate` states |
| CodeFixer.CodeFixer.FixNext | src/fixer/code_fixer.py:56-80 | one pass keeps the collected rewrites changed, readable files of the project, keeps them as planned for the entries seen so far, and, unless it raised, leaves the context as `ContextAfter` gives for those entries |
| CodeFixer.CodeFixer.FixEntries | src/fixer/code_fixer.py:56-83 | the loop over the entries, in order until one raises, collects rewrites that are changed, readable files of the project, as planned when no two keys name the same file; a run that completes leaves the context as `ContextAfter` gives for all entries |
| CodeFixer.CodeFixer.FixFromAnalysis | src/fixer/code_fixer.py:34-83 | a report that cannot be read raises with nothing fixed; `files_fixed` counts the rewrites; every returned path is a changed, readable file of the project that the report lists; when no two report keys name the same file, each returned rewrite is the one `PathFix` plans for its entry with the note stored before the run, and a run that completes returns a rewrite for exactly the entries whose plan has one and counts exactly the planned fixes; such a run leaves the stored analyses and notes as `ContextAfter` gives over the entries in order, and the project-wide context is untouched |
| CodeFixer.ContextUpdate | src/fixer/code_fixer.py:243-273 | `_update_project_context` changes only the file's own analysis and note; it adds no analysis and changes only the issues of the stored one; marking that fails raises with nothing changed; a call that does not raise records a "Fixed issues" note, and one that raises leaves the note as it was |
| CodeFixer.ContextUpdateAgree | src/fixer/code_fixer.py:243-273 | what the update leaves at the file depends only on what was stored for that file |
| CodeFixer.ContextAfter | src/fixer/code_fixer.py:56-80 | the update applied, in order, for each entry with a planned rewrite adds no analysis to the store |
| CodeFixer.ContextAfterOther | src/fixer/code_fixer.py:56-80 | a file that no entry with a planned rewrite names keeps its stored analysis and note through the run |
| CodeFixer.ContextAfterRewritten | src/fixer/code_fixer.py:56-80 | when no two entries name the same file, an entry's rewritten file ends the run with the analysis and note one update for that entry gives from what was stored before the run |
| Text.Lower | src/analyzer/enhanced_analyzer.py:288 | `str.lower` keeps the length and lower-cases each character on its own |
| Text.Strip | src/fixer/code_fixer.py:145 | `str.strip` never lengthens its text and leaves no whitespace at either end (what it cuts is stated by `Text.StripCuts`) |
| Text.StripCuts | src/fixer/code_fixer.py:145 | the strip of a text is the slice that starts after its leading whitespace, and everything cut off before and after that slice is whitespace |
| Text.StripSlice | src/fixer/code_fixer.py:145 | trimming the start and then the end leaves a slice of the text whose trailing cut is all whitespace |
| Text.StripStripped | src/fixer/code_fixer.py:145 | stripping a text with no whitespace at either end changes nothing |
| Text.Split | src/llm/enhanced_llm_service.py:507 | `str.split` on a character gives at least one part, none holding that character |
| Text.JoinSplit | src/llm/enhanced_llm_service.py:507-520 | joining the parts of a split with the separator gives back the text |
| Text.SplitJoin | src/llm/enhanced_llm_service.py:507-520 | splitting parts that were joined, none holding the separator, gives back the parts |
| Text.FirstLineAndRest | src/analyzer/enhanced_analyzer.py:282-284 | `split("\n", 1)`: the first line is the text up to the first newline, and the rest joined back is the text after it |

## Left out

- Network transport: `requests.post`, HTTP status handling and request timeouts are not modelled; each backend call is its outcome (reply and token count, or failure), given as a parameter.
- `time.sleep`, `time.time` and `strftime`: the retry backoff is modelled as the list of delays it would wait, timestamps are integers given by the caller, and the enhanced analyzer's rate-limit pause is dropped.
- Floating-point timings and averages: `request_times` values, `total_time`, `analysis_time`, `execution_time`, and the averages of both clients' `get_statistics`, which are floats and wall-clock reads.
- Temperatures and the text of the prompts built by `prompt_builder.py` and by each client method: literal strings; the model takes the backend's reply to each request as a parameter. Whether `build_fix_prompt` can enumerate the issues at all, and so raises before any request, is modelled (`LlmService.FixPromptBuilds`).
- `json.loads`, `json.dumps` and `ast.parse`: foreign parsers, taken as functions (`decode`) or flags (`pythonParses`).
- `fnmatch` exclusion and `os.walk`/`os.stat`/`iterdir` directory scanning, `get_project_structure`, `get_file_info`, `_count_lines` and `_build_structure`: file-system I/O; the listing, exclusion test, contents and mtimes are parameters.
- `ProjectContext.save`, the file I/O of `load_or_create`, `AnalysisStore._save_store` and `_ensure_store_exists`: persistence; the stores are modelled in memory, and a load is modelled by the decoded file contents (or their absence).
- `_guess_language_from_path` of the enhanced client: it only feeds a prompt.
- `print` diagnostics, `reporting.py`, `sample_templates.py`, `main.py`, `config.py` and `setup.py`: presentation, CLI wiring and packaging.
- Python's full Unicode: `\s`, `\d`, `\w`, `isspace`, `lower` and `capitalize` are modelled on ASCII characters only.
- Python's integer widths need nothing: Python integers are unbounded, as Dafny's are.
- EnhancedLlm.EnhancedLlmService.ChatAboutCodeWithPrompt: `chat_about_code` extends the caller's own message list in place; the model builds a new sequence, so that aliasing is not captured.
- Sorting.SortDesc: its contract states a sorted permutation; stability is given by the insertion order of the algorithm but not stated as a property.
- AnalysisStore.AnalysisStore.GetAnalysis: the index is a natural number, so Python's negative indexing from the end of the list is not modelled.
- CodeAnalyzer.Tagged: the source raises `KeyError` on an analysis without `file_path`; the model carries the path as an optional value, which every analysis `_analyze_file` builds does hold.
- CodeFixer.JsonAnalyses: the model states which paths the JSON branch lists and with which issues, but not the order of the keys of the decoded report.
- CodeFixer.CodeFixer.UpdateProjectContext: the stored analysis is a dictionary shared with the context and marked in place; the model writes the marked copy back, also when the marking raises part-way, which gives the same stored value but does not model the sharing itself.
- CodeFixer.SectionIssues: uses the corrected bullet pattern, which finds every dash bullet line, where the pattern as written at src/fixer/code_fixer.py:174 finds only every other one (`CodeFixer.BulletsAsWrittenEveryOther`, see Findings).
- CodeFixer.SectionIssuesFrom: states the long bullets of the corrected pattern, not those the pattern as written finds.
- CodeFixer.LongBullets: states the bullets of the corrected pattern, not those of the pattern as written.
- CodeFixer.ParseSection: computes the issues of `SectionIssues`, so with the corrected bullet pattern.
- CodeFixer.CodeFixer.FixFromAnalysis: the rewrites and fix count are tied to the plan only when no two report keys name the same file; otherwise a later entry would see the note an earlier one stored for that file, which the plan does not follow.
- CodeFixer.Brief: descriptions of 51 or 52 characters become 53 characters long (`[:50] + "..."`); the contract states the cut as written, without judging it.
- EnhancedAnalyzer.EnhancedAnalyzer.AnalyzeFile: the reply to a fresh analysis is that of a hypothetical client whose prompt building accepts the `min_issues` and `context` keywords; with either client in the source (the plain client the annotation names, or the enhanced client) every fresh analysis raises before a reply exists, and that raise is not modelled here.
- EnhancedAnalyzer.EnhancedAnalyzer.AnalyzeDirectory: the calls into an attached project context or analysis store are modelled only as the raise their mismatched keyword arguments cause; what those collaborators would record is not modelled.

## Findings

| source | as written | input that shows it | evidently intended | confidence | as-written member | corrected member |
|---|---|---|---|---|---|---|
| src/fixer/code_fixer.py:174 | the bullet pattern, without MULTILINE, matches a later bullet only after a newline it consumes itself, so the match of one bullet line takes the newline the next one needs | a section "- " + d1 + "\n- " + d2 + "\n" yields only d1 | every dash bullet line is found, as with `^\s*-\s*(.+?)` and MULTILINE | not executed | CodeFixer.BulletsAsWrittenEveryOther | CodeFixer.DashBulletsFindEach |
| src/llm/enhanced_llm_service.py:254 | `generate_code` calls `build_generation_prompt`, which the prompt builder does not define | any call | a generation prompt is built and the reply's code is returned | not executed | EnhancedLlm.EnhancedLlmService.GenerateCode | EnhancedLlm.EnhancedLlmService.GenerateCodeWithPrompt |
| src/llm/enhanced_llm_service.py:314 | `create_project_structure` calls `build_project_prompt`, which the prompt builder does not define | any call | a project prompt is built and the reply's structure is returned | not executed | EnhancedLlm.EnhancedLlmService.CreateProjectStructure | EnhancedLlm.EnhancedLlmService.CreateProjectStructureWithPrompt |
| src/llm/enhanced_llm_service.py:70-75 | `analyze_code` passes `min_issues` to `build_analysis_prompt`, which does not take it, and does not pass the required `code` | any call | an analysis prompt is built and the reply's analysis is returned | not executed | EnhancedLlm.EnhancedLlmService.AnalyzeCode | EnhancedLlm.EnhancedLlmService.AnalyzeCodeWithPrompt |
| src/llm/enhanced_llm_service.py:190-193 | `chat_about_code` passes `project_path` and `related_files` to `build_chat_prompt`, which takes neither, and does not pass the required message and history | any call | a chat prompt is built and the reply joins the history | not executed | EnhancedLlm.EnhancedLlmService.ChatAboutCode | EnhancedLlm.EnhancedLlmService.ChatAboutCodeWithPrompt |
