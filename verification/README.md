# dev-gpt prompt budgeting, in Dafny

A model of how the TDD agent of dev-gpt builds the prompt for one turn, and
of how its summarizer picks its prompt templates.

- `TddGPTPrompt.format_messages` scans the transcript from the newest message
  to the oldest. The scan collects a code-context dict from file path to code,
  using the system messages that carry a non-blank `code` and a `file_path`.
  It picks the metadata of the newest step message as the "last step", or
  "None" when there is none. The token budget is the send limit minus the
  tokens of the base prompt, the user input and the last step. Whole entries
  are popped from the front of the dict until the remaining code fits. The
  system message is the base prompt followed by a code-context block and a
  last-step block; the human message is the user input.
- `get_prompt` renders five titled sections, each a numbered list or a
  block: general instructions, ReactJS instructions (the first names the
  output directory), the command catalogue built from the tools,
  performance evaluation, and the JSON response format.
  `construct_full_prompt` puts the opening text, a `Specifications:` header,
  the goals one per line, and the `get_prompt` text together.
- `TextSummarizer.get_prompt_template` and `get_reduce_template` choose a
  template by summary type (`cli` or `memory`) and reject any other type
  with `ValueError`. The map template replaces `{text}` by `{docs}`.

Modules:
- `Results`: Option and Result, and the two exceptions the core raises.
- `Text`: whitespace, strip, join, decimals, occurrence and `str.replace`.
- `OrderedMap`: a dict as its entries in insertion order.
- `Transcript`: messages, the code-context scan, the last step.
- `Budget`: token sums, the available budget, the eviction loop.
- `PromptText` and `Prompt`: the prompt text and `format_messages`.
- `Summarizer`: the summarizer templates.

The fixed prose (the opening text, the three instruction lists, the JSON
response format, the summarizer's instructions and first lines) lives in
records, `PromptText.PromptTexts` and `Summarizer.SummaryTexts`.
`PromptText.SourceTexts()` and `Summarizer.SourceSummaryTexts()` hold the
text as the source writes it, after `textwrap.dedent` and `json.dumps`. Every
property is proved for any value of those records, so none depends on the
wording of the prose.

**Which code survives.** One might expect each file to keep its most
recent code. The scan does not do that. It runs newest to oldest and assigns
`code_context[file_path] = code` at every contributing message, so:
- an older message overwrites the value a newer one put there, and each path
  ends up holding the code of its OLDEST contributing message
  (`Transcript.RewrittenFileKeepsOlderCode`);
- a path keeps the dict position of its first insertion, which is its NEWEST
  contributing message, so the dict lists paths by most recent edit, newest
  first (`Transcript.LastWrittenFileComesFirst`);
- eviction pops the front of the dict, so the most recently edited files
  are evicted first, and what is kept is the longest suffix of the dict that
  fits.

`Transcript.IsCodeContextOf` states this as a characterization of the dict
that does not mention the loop. `Transcript.CodeContextUnique` proves that
the characterization determines the dict.

## Model

| member | source | states |
|---|---|---|
| OrderedMap.Put | tdd_gpt/prompt.py:69 | `d[k] = v`: paths stay distinct, the key set gains `k`; an existing key keeps its position and only its value changes; a new key is appended at the end |
| Text.Strip | tdd_gpt/prompt.py:66 | `s.strip()` is no longer than `s` and neither starts nor ends with whitespace |
| Text.StripIsSlice | tdd_gpt/prompt.py:66 | `s.strip()` is a slice of `s` with only whitespace before and after it |
| Transcript.ContributesIffScanTest | tdd_gpt/prompt.py:64-66 | a message feeds the code context exactly when it is a system message with `code` and `file_path` entries and its code is non-empty once stripped |
| Text.StripNonEmptyIffHasText | tdd_gpt/prompt.py:66 | `len(code.strip()) > 0` holds exactly when the code has a non-whitespace character |
| Transcript.NewestIsLatest | tdd_gpt/prompt.py:63-69 | no message after the newest contributing message for a path contributes to it |
| Transcript.OldestIsEarliest | tdd_gpt/prompt.py:63-69 | no message before the oldest contributing message for a path contributes to it |
| Transcript.ExtractCodeContext | tdd_gpt/prompt.py:62-69 | the reverse scan yields distinct paths, exactly those named by a contributing system message; each holds the code of its oldest contributing message; they are ordered by their newest contributing message, newest first |
| Transcript.CodeContextUnique | tdd_gpt/prompt.py:62-69 | two dicts meeting that characterization are equal, so the transcript determines the code context |
| Transcript.NoCodeNoContext | tdd_gpt/prompt.py:62-69 | a transcript with no contributing message gives an empty code context |
| Transcript.RewrittenFileKeepsOlderCode | tdd_gpt/prompt.py:63-69 | a file written by two messages ends up holding the code of the older one |
| Transcript.LastWrittenFileComesFirst | tdd_gpt/prompt.py:63-69 | two files written in turn: the later-written one comes first in the dict, and each holds its own code |
| Transcript.LastStepIndex | tdd_gpt/prompt.py:73-77 | the index found is a system message with non-empty metadata and no later message is one, or it is -1 and none is |
| Transcript.LastStep | tdd_gpt/prompt.py:73-80 | the last step is the metadata of the newest step message, or "None" when no message records a step |
| Budget.TokenSumBounds | tdd_gpt/prompt.py:70 | no entry's token count exceeds the sum, and the sum is zero exactly when every entry counts zero |
| Budget.TokenSumAppend | tdd_gpt/prompt.py:70 | the token sum of a concatenation of entries is the sum of the parts' token sums |
| Budget.TokenSumSuffix | tdd_gpt/prompt.py:87-89 | dropping entries from the front never increases the token sum |
| Budget.Available | tdd_gpt/prompt.py:84 | the available budget never exceeds the limit; it is non-negative exactly when the base prompt, input and last step fit the limit together |
| Prompt.TurnBudget | tdd_gpt/prompt.py:84 | the budget of a turn is at most the limit, and is non-negative exactly when the full prompt, the user input and the last step fit the limit together |
| Budget.FitToBudget | tdd_gpt/prompt.py:87-89 | the loop keeps a suffix of the dict whose tokens fit, and every longer suffix does not fit; it fails with StopIteration exactly when the budget is negative |
| Text.DecimalRoundTrip | tdd_gpt/prompt.py:166-169 | the decimal rendering of a number reads back as that number |
| Prompt.NumberedListSnoc | tdd_gpt/prompt.py:166-169 | appending an item appends one line numbered one past the previous count; a single item is line "1. " |
| Prompt.NumberedLineNumber | tdd_gpt/prompt.py:166-169 | line `i` is the number `i+1`, ". " and the item, and its number reads back as `i+1` |
| Prompt.NumberedList | tdd_gpt/prompt.py:166-169 | the list is empty exactly when there are no items; a non-empty list starts with "1. " and its first item |
| Prompt.ToolItem | tdd_gpt/prompt.py:168 | a catalogue entry starts with the tool's name and description, ends with its argument schema, and holds only the two fixed separators besides |
| Prompt.CatalogueSnoc | tdd_gpt/prompt.py:168 | adding a tool adds one catalogue line with its name, description and argument schema, numbered after the others |
| Prompt.GetPrompt | tdd_gpt/prompt.py:102-179 | the prompt opens with the General Instructions section, holds the Commands header over the tool catalogue, and closes with the Response Format section |
| Prompt.SectionAt | tdd_gpt/prompt.py:171-177 | every rendered section appears whole, header first, at its offset in the text |
| Prompt.SectionsInOrder | tdd_gpt/prompt.py:171-177 | the five headers appear in their fixed order, each followed by its body, whatever the tools |
| Prompt.OutputDirInReactSection | tdd_gpt/prompt.py:113 | the ReactJS section opens with the numbered setup instruction that names the output directory |
| Prompt.ToolsOnlyFillCommands | tdd_gpt/prompt.py:168-177 | the prompt for any tools is the prompt without tools with only the Commands body filled in; without tools the Commands body is empty |
| Prompt.CatalogueRecoverable | tdd_gpt/prompt.py:168-177 | two tool lists give the same prompt only if they give the same catalogue |
| Prompt.ConstructFullPrompt | tdd_gpt/prompt.py:27-47 | the full prompt is the opening text and `Specifications:` header, then the newline-joined goals, then a blank line and the `get_prompt` text, and its length is the sum of those three parts, so nothing else is in it |
| Prompt.GoalsRecoverable | tdd_gpt/prompt.py:40-46 | two goal lists give the same full prompt only if their newline-joins are equal |
| Prompt.CodeBlock | tdd_gpt/prompt.py:91 | an empty dict renders as "None"; a dict whose first kept code is not blank renders as a non-blank block |
| Prompt.Assemble | tdd_gpt/prompt.py:92-98 | two messages: a system message that starts with the base prompt, continues with the code-context block and ends with the last-step block, with nothing else in it, then a human message holding the user input |
| Prompt.FormatMessages | tdd_gpt/prompt.py:49-100 | the code context is the one the transcript determines; the turn fails with StopIteration exactly when the budget is negative; otherwise the longest fitting suffix of the code context is kept and the messages are assembled from it |
| Summarizer.Template | tdd_gpt/summarizer.py:64-70 | a template contains its wrapped placeholder after the first line and a blank line, and ends with a blank line and the instruction |
| Summarizer.GetPromptTemplate | tdd_gpt/summarizer.py:62-80 | exactly "cli" and "memory" give a template, any other type `ValueError("Invalid summary type")`; the template holds `{text}` between `<output>` tags and ends with the type's instruction |
| Summarizer.GetReduceTemplate | tdd_gpt/summarizer.py:82-100 | the same dispatch; the template holds `{doc_summaries}` between `<summaries>` tags and ends with the type's instruction |
| Summarizer.TemplatesShareInstruction | tdd_gpt/summarizer.py:62-100 | a summary type has a map template exactly when it has a reduce template, and both end with the same instruction block |
| Text.ReplaceAllWithoutPattern | tdd_gpt/summarizer.py:38 | `str.replace` leaves a text without the pattern unchanged |
| Text.ReplaceAllKeepsReplacement | tdd_gpt/summarizer.py:38 | replacing an occurring pattern leaves the replacement in the text |
| Text.ReplaceAllRemovesPattern | tdd_gpt/summarizer.py:38 | when the replacement starts like the pattern but differs from it, and the pattern's first character occurs nowhere else in either, no occurrence of the pattern is left |
| Summarizer.MapTemplate | tdd_gpt/summarizer.py:35-38 | the map template of a valid summary type holds `{docs}` and no `{text}`; an invalid type fails with the same `ValueError` |

## Left out

- The base prompt tokens: the system message built by `format_messages` is not claimed to stay within `send_token_limit`. The code counts the base prompt without the code-context and last-step block frames, and so does the model.
- `platform.system()` and `os_name` are computed in `construct_full_prompt` but never used. The resolution of `output_dir` by `os.path.abspath` or `os.getcwd()` and its write-back to the object are file-system state. The model takes the resolved directory as `outputDir`.
- `json.dumps`: the response format and each tool's argument schema are opaque text (`responseFormat`, `Tool.argsSchema`).
- `textwrap.dedent`: the templates are written in their dedented form. `Summarizer.InstructionBlock` models how dedent empties the blank line before the CLI instruction.
- The token counter is a function into the naturals. A counter that returns negative counts is not modelled.
- Message classes are a `Role`. The `code`, `file_path` and `metadata` entries of `additional_kwargs` are optional string fields. Metadata that is not a string is not modelled.
- The `summarizer` property of `TddGPTPrompt`, `TextSummarizer.__init__`'s language model, chains and `token_max`, and `summarize` (text splitting, map-reduce): these are calls into LangChain and a local language model.
- `PromptTemplate.from_template`: the model stops at the template strings.
- dev_gpt/summarizer.py is not part of this model.
- Summarizer.MapTemplate: proves that no `{text}` is left only for the placeholders the source uses, not for any pattern.
- Text.ReplaceAllRemovesPattern: covers only patterns whose first character does not recur in the pattern or the replacement, not every `str.replace`.
