/** `TddGPTPrompt`: the system prompt text (`get_prompt`,
    `construct_full_prompt`) and the budgeted two-message prompt of one agent
    turn (`format_messages`). */
module Prompt {
  import opened Results
  import opened Text
  import opened OrderedMap
  import opened Transcript
  import opened Budget
  import opened PromptText

  /** A tool of the command catalogue; `argsSchema` is the text
      `json.dumps(tool.args)` gives. */
  datatype Tool = Tool(name: string, description: string, argsSchema: string)

  /** The fields of a `TddGPTPrompt`. `outputDir` is the directory
      `construct_full_prompt` has already resolved (made absolute, or the
      working directory when none was given). `texts` is the fixed prose,
      `SourceTexts()` in the source; every property below holds whatever
      that prose is. `sendTokenLimit` is 4096 unless the caller sets it. */
  datatype PromptSettings = PromptSettings(
    tools: seq<Tool>,
    tokenCounter: string -> nat,
    sendTokenLimit: int,
    outputDir: string,
    texts: PromptTexts)

  // ---------------------------------------------------------------------
  // Numbered lists: `"\n".join(f"{i+1}. {item}" for i, item in enumerate(items))`

  function NumberedItem(n: nat, item: string): string {
    Decimal(n) + ". " + item
  }

  function NumberedLines(items: seq<string>): (lines: seq<string>)
    ensures |lines| == |items|
  {
    seq(|items|, i requires 0 <= i < |items| => NumberedItem(i + 1, items[i]))
  }

  /** The numbered list is empty exactly when there are no items, and
      otherwise starts with the first item, numbered 1. */
  function NumberedList(items: seq<string>): (r: string)
    ensures items == [] <==> r == ""
    ensures items != [] ==> OccursAt(r, "1. " + items[0], 0)
  {
    var lines := NumberedLines(items);
    if items == [] then Join(lines, "\n")
    else
      assert Decimal(1) == "1";
      assert lines[0] == "1. " + items[0];
      JoinHead(lines, "\n");
      Join(lines, "\n")
  }

  /** One more item adds one more line, numbered one past the previous
      count: lines are numbered from 1 in input order. */
  lemma NumberedListSnoc(items: seq<string>, x: string)
    ensures NumberedList(items + [x]) ==
      if items == [] then "1. " + x else NumberedList(items) + "\n" + NumberedItem(|items| + 1, x)
  {
    assert NumberedLines(items + [x]) == NumberedLines(items) + [NumberedItem(|items| + 1, x)];
    JoinSnoc(NumberedLines(items), NumberedItem(|items| + 1, x), "\n");
    if items == [] {
      assert Decimal(1) == "1";
    }
  }

  /** The number in front of every line reads back as its position plus one. */
  lemma NumberedLineNumber(items: seq<string>, i: nat)
    requires i < |items|
    ensures var line := NumberedLines(items)[i];
      line == Decimal(i + 1) + ". " + items[i] && DecimalValue(line[..|Decimal(i + 1)|]) == i + 1
  {
    var line := NumberedLines(items)[i];
    assert line[..|Decimal(i + 1)|] == Decimal(i + 1);
    DecimalRoundTrip(i + 1);
  }

  // ---------------------------------------------------------------------
  // The command catalogue

  /** `f"{tool.name}: {tool.description}, args json schema: {args}"`: the
      name and description first, the schema last, and nothing else but the
      two fixed separators. */
  function ToolItem(t: Tool): (r: string)
    ensures OccursAt(r, t.name + ": " + t.description, 0)
    ensures EndsWith(r, ", args json schema: " + t.argsSchema)
    ensures |r| == |t.name + ": " + t.description| + |", args json schema: " + t.argsSchema|
  {
    ConcatParts(t.name + ": " + t.description, ", args json schema: " + t.argsSchema, "");
    t.name + ": " + t.description + (", args json schema: " + t.argsSchema)
  }

  function CommandItems(tools: seq<Tool>): (items: seq<string>)
    ensures |items| == |tools|
  {
    seq(|tools|, i requires 0 <= i < |tools| => ToolItem(tools[i]))
  }

  /** One more tool adds one more catalogue line, numbered after the others. */
  lemma CatalogueSnoc(tools: seq<Tool>, t: Tool)
    ensures NumberedList(CommandItems(tools + [t])) ==
      if tools == [] then "1. " + ToolItem(t)
      else NumberedList(CommandItems(tools)) + "\n" + NumberedItem(|tools| + 1, ToolItem(t))
  {
    assert CommandItems(tools + [t]) == CommandItems(tools) + [ToolItem(t)];
    NumberedListSnoc(CommandItems(tools), ToolItem(t));
  }

  // ---------------------------------------------------------------------
  // `get_prompt`: five titled sections

  datatype Section = Section(title: string, body: string)

  /** `f"{title}:\n{body}\n\n"`. */
  function RenderSection(s: Section): string {
    s.title + ":\n" + s.body + "\n\n"
  }

  function RenderSections(ss: seq<Section>): string {
    if ss == [] then "" else RenderSection(ss[0]) + RenderSections(ss[1..])
  }

  /** Where section `i` starts in the rendered text. */
  function SectionOffset(ss: seq<Section>, i: nat): nat
    requires i <= |ss|
  {
    |RenderSections(ss[..i])|
  }

  const SectionTitles: seq<string> :=
    ["General Instructions", "For ReactJS Projects", "Commands", "Performance Evaluation", "Response Format"]

  /** The ReactJS instructions: the first one names the output directory. */
  function ReactJsInstructions(texts: PromptTexts, outputDir: string): seq<string> {
    [texts.setupHead + outputDir + texts.setupTail] + texts.reactJs
  }

  function PromptSections(texts: PromptTexts, tools: seq<Tool>, outputDir: string): (ss: seq<Section>)
    ensures |ss| == |SectionTitles|
    ensures forall i :: 0 <= i < |ss| ==> ss[i].title == SectionTitles[i]
  {
    [ Section(SectionTitles[0], NumberedList(texts.general)),
      Section(SectionTitles[1], NumberedList(ReactJsInstructions(texts, outputDir))),
      Section(SectionTitles[2], NumberedList(CommandItems(tools))),
      Section(SectionTitles[3], NumberedList(texts.performance)),
      Section(SectionTitles[4], "```json\n" + texts.responseFormat + "\n```") ]
  }

  /** `get_prompt(tools)`: it opens with the General Instructions section,
      holds the Commands section with the catalogue of the tools, and closes
      with the Response Format section. */
  function GetPrompt(texts: PromptTexts, tools: seq<Tool>, outputDir: string): (r: string)
    ensures var ss := PromptSections(texts, tools, outputDir);
      OccursAt(r, RenderSection(ss[0]), 0)
      && Occurs(r, SectionTitles[2] + ":\n" + NumberedList(CommandItems(tools)))
      && EndsWith(r, RenderSection(ss[4]))
  {
    var ss := PromptSections(texts, tools, outputDir);
    SectionAt(ss, 0);
    SectionAt(ss, 2);
    RenderSectionsSplit(ss, 4);
    assert ss[5..] == [];
    RenderSections(ss)
  }

  /** Rendering distributes over concatenation of section lists. */
  lemma {:induction false} RenderSectionsConcat(a: seq<Section>, b: seq<Section>)
    ensures RenderSections(a + b) == RenderSections(a) + RenderSections(b)
  {
    if a == [] {
      assert a + b == b;
    } else {
      assert (a + b)[1..] == a[1..] + b;
      RenderSectionsConcat(a[1..], b);
    }
  }

  /** Rendering a list of sections is rendering the ones before section
      `i`, then section `i`, then the ones after it. */
  lemma RenderSectionsSplit(ss: seq<Section>, i: nat)
    requires i < |ss|
    ensures RenderSections(ss) == RenderSections(ss[..i]) + RenderSection(ss[i]) + RenderSections(ss[i + 1..])
  {
    assert ss == ss[..i] + ss[i..];
    RenderSectionsConcat(ss[..i], ss[i..]);
    RenderSectionsFrom(ss, i);
    AppendAssoc(RenderSections(ss[..i]), RenderSection(ss[i]), RenderSections(ss[i + 1..]));
  }

  /** The sections from `i` on render as section `i` and then the rest. */
  lemma RenderSectionsFrom(ss: seq<Section>, i: nat)
    requires i < |ss|
    ensures RenderSections(ss[i..]) == RenderSection(ss[i]) + RenderSections(ss[i + 1..])
  {
    assert ss[i..][1..] == ss[i + 1..];
  }

  /** Concatenation of texts is associative. */
  lemma AppendAssoc(a: string, b: string, c: string)
    ensures a + (b + c) == a + b + c
  {
  }

  /** Every section appears whole, header first, at its offset. */
  lemma SectionAt(ss: seq<Section>, i: nat)
    requires i < |ss|
    ensures OccursAt(RenderSections(ss), RenderSection(ss[i]), SectionOffset(ss, i))
    ensures OccursAt(RenderSections(ss), ss[i].title + ":\n" + ss[i].body, SectionOffset(ss, i))
  {
    RenderSectionsSplit(ss, i);
    var before, here := RenderSections(ss[..i]), RenderSection(ss[i]);
    ConcatParts(before, here, RenderSections(ss[i + 1..]));
    OccursAtPrefix(RenderSections(ss), ss[i].title + ":\n" + ss[i].body, "\n\n", |before|);
  }

  /** Each section starts after the one before it. */
  lemma SectionOffsetGrows(ss: seq<Section>, i: nat)
    requires i < |ss|
    ensures SectionOffset(ss, i) < SectionOffset(ss, i + 1)
  {
    assert ss[..i + 1] == ss[..i] + [ss[i]];
    RenderSectionsConcat(ss[..i], [ss[i]]);
  }

  /** The five headers appear in the fixed order General Instructions,
      ReactJS, Commands, Performance Evaluation, Response Format, each
      followed by its body, whatever the tools. */
  lemma SectionsInOrder(texts: PromptTexts, tools: seq<Tool>, outputDir: string, i: nat)
    requires i < |SectionTitles|
    ensures var ss := PromptSections(texts, tools, outputDir);
      OccursAt(GetPrompt(texts, tools, outputDir), SectionTitles[i] + ":\n" + ss[i].body, SectionOffset(ss, i))
      && (i + 1 < |SectionTitles| ==> SectionOffset(ss, i) < SectionOffset(ss, i + 1))
  {
    SectionAt(PromptSections(texts, tools, outputDir), i);
    if i + 1 < |SectionTitles| {
      SectionOffsetGrows(PromptSections(texts, tools, outputDir), i);
    }
  }

  /** The ReactJS section opens with the setup instruction that names the
      output directory. */
  lemma OutputDirInReactSection(texts: PromptTexts, tools: seq<Tool>, outputDir: string)
    ensures var ss := PromptSections(texts, tools, outputDir);
      OccursAt(ss[1].body, "1. " + texts.setupHead + outputDir + texts.setupTail, 0)
  {
  }

  /** The tools change nothing but the body of the Commands section: the
      prompt is the one with no tools with the catalogue filled in, and with
      no tools the `Commands:` header is still there, over an empty body. */
  lemma ToolsOnlyFillCommands(texts: PromptTexts, tools: seq<Tool>, outputDir: string)
    ensures GetPrompt(texts, tools, outputDir) ==
      (RenderSections(PromptSections(texts, [], outputDir)[..2]) + SectionTitles[2] + ":\n") + NumberedList(CommandItems(tools))
      + ("\n\n" + RenderSections(PromptSections(texts, [], outputDir)[3..]))
    ensures NumberedList(CommandItems([])) == ""
  {
    var ss, empty := PromptSections(texts, tools, outputDir), PromptSections(texts, [], outputDir);
    RenderSectionsSplit(ss, 2);
    assert ss[..2] == empty[..2];
    assert ss[3..] == empty[3..];
    RenderAround(RenderSections(empty[..2]), ss[2], RenderSections(empty[3..]));
    assert CommandItems([]) == [];
  }

  /** A rendered section between two texts: its body sits between the
      header and the blank line. */
  lemma RenderAround(before: string, s: Section, after: string)
    ensures before + RenderSection(s) + after == (before + s.title + ":\n") + s.body + ("\n\n" + after)
  {
  }

  /** Two strings that differ only in a middle part of a common length have
      equal middles. */
  lemma MiddleCancel(head: string, a: string, b: string, tail: string)
    requires head + a + tail == head + b + tail
    ensures a == b
  {
    assert |a| == |b|;
    assert a == (head + a + tail)[|head|..|head| + |a|];
    assert b == (head + b + tail)[|head|..|head| + |b|];
  }

  /** The tool catalogue is recoverable from the prompt: two tool lists give
      the same prompt only if they give the same numbered catalogue. */
  lemma CatalogueRecoverable(texts: PromptTexts, tools1: seq<Tool>, tools2: seq<Tool>, outputDir: string)
    requires GetPrompt(texts, tools1, outputDir) == GetPrompt(texts, tools2, outputDir)
    ensures NumberedList(CommandItems(tools1)) == NumberedList(CommandItems(tools2))
  {
    ToolsOnlyFillCommands(texts, tools1, outputDir);
    ToolsOnlyFillCommands(texts, tools2, outputDir);
    MiddleCancel(RenderSections(PromptSections(texts, [], outputDir)[..2]) + SectionTitles[2] + ":\n",
                 NumberedList(CommandItems(tools1)), NumberedList(CommandItems(tools2)),
                 "\n\n" + RenderSections(PromptSections(texts, [], outputDir)[3..]));
  }

  // ---------------------------------------------------------------------
  // `construct_full_prompt`

  /** `construct_full_prompt(goals)`: the opening text and the
      `Specifications:` header, then the goals one per line, then a blank
      line and the `get_prompt` text, with nothing in between. */
  function ConstructFullPrompt(texts: PromptTexts, goals: seq<string>, tools: seq<Tool>, outputDir: string): (r: string)
    ensures var head, tail := texts.start + "\nSpecifications:\n", "\n\n" + GetPrompt(texts, tools, outputDir);
      OccursAt(r, head, 0) && OccursAt(r, Join(goals, "\n"), |head|) && EndsWith(r, tail)
      && |r| == |head| + |Join(goals, "\n")| + |tail|
  {
    var fullPrompt := texts.start + "\nSpecifications:\n";
    var fullPrompt := fullPrompt + Join(goals, "\n");
    ConcatParts(texts.start + "\nSpecifications:\n", Join(goals, "\n"), "\n\n" + GetPrompt(texts, tools, outputDir));
    fullPrompt + ("\n\n" + GetPrompt(texts, tools, outputDir))
  }

  /** The full prompt is the opening text, the goals one per line, and the
      `get_prompt` text; the goals are recoverable from it, since two goal
      lists give the same prompt only if their newline-joins are equal. */
  lemma GoalsRecoverable(texts: PromptTexts, goals1: seq<string>, goals2: seq<string>, tools: seq<Tool>, outputDir: string)
    requires ConstructFullPrompt(texts, goals1, tools, outputDir) == ConstructFullPrompt(texts, goals2, tools, outputDir)
    ensures Join(goals1, "\n") == Join(goals2, "\n")
  {
    var head, tail := texts.start + "\nSpecifications:\n", "\n\n" + GetPrompt(texts, tools, outputDir);
    MiddleCancel(head, Join(goals1, "\n"), Join(goals2, "\n"), tail);
  }

  // ---------------------------------------------------------------------
  // `format_messages`

  function Codes(d: seq<Entry>): (codes: seq<string>)
    ensures |codes| == |d| && forall i :: 0 <= i < |d| ==> codes[i] == d[i].code
  {
    seq(|d|, i requires 0 <= i < |d| => d[i].code)
  }

  /** `code_context_str`: the kept code joined by newlines and stripped, or
      "None" when nothing is kept. Kept code that is not blank leaves a
      block that is not blank. */
  function CodeBlock(kept: seq<Entry>): (r: string)
    ensures kept == [] ==> r == "None"
    ensures kept != [] && HasText(kept[0].code) ==> HasText(r)
  {
    if |kept| > 0 then
      JoinedCodeHasText(kept);
      Strip(Join(Codes(kept), "\n"))
    else "None"
  }

  lemma JoinedCodeHasText(kept: seq<Entry>)
    requires kept != []
    ensures HasText(kept[0].code) ==> |Strip(Join(Codes(kept), "\n"))| > 0
  {
    var joined := Join(Codes(kept), "\n");
    JoinHead(Codes(kept), "\n");
    if HasText(kept[0].code) {
      assert joined == kept[0].code + joined[|kept[0].code|..];
      HasTextPrefix(kept[0].code, joined[|kept[0].code|..]);
      StripNonEmptyIffHasText(joined);
    }
  }

  /** The code-context block of `prompt_suffix`. */
  function CodeSection(codeBlock: string): string {
    "Code Context:\n>>>>\n" + codeBlock + "\n<<<<\n"
  }

  /** The last-step block of `prompt_suffix`. */
  function StepSection(lastStep: string): string {
    "\nLast Step:\n>>>>\n" + lastStep + "\n<<<<\n"
  }

  /** `prompt_suffix`. */
  function PromptSuffix(codeBlock: string, lastStep: string): string {
    CodeSection(codeBlock) + StepSection(lastStep)
  }

  /** The two messages of a turn: the system message is the base prompt
      followed by the code-context and last-step blocks, the human message is
      the user input unchanged. */
  function Assemble(basePrompt: string, kept: seq<Entry>, lastStep: string, userInput: string): (r: seq<Message>)
    ensures |r| == 2 && r[0].role == System && r[1] == HumanMessage(userInput)
    ensures OccursAt(r[0].content, basePrompt, 0)
    ensures OccursAt(r[0].content, CodeSection(CodeBlock(kept)), |basePrompt|)
    ensures EndsWith(r[0].content, StepSection(lastStep))
    ensures |r[0].content| == |basePrompt| + |CodeSection(CodeBlock(kept))| + |StepSection(lastStep)|
  {
    var code, step := CodeSection(CodeBlock(kept)), StepSection(lastStep);
    assert basePrompt + PromptSuffix(CodeBlock(kept), lastStep) == basePrompt + code + step;
    ConcatParts(basePrompt, code, step);
    [SystemMessage(basePrompt + PromptSuffix(CodeBlock(kept), lastStep)), HumanMessage(userInput)]
  }

  /** `available_tokens` of a turn: at most the limit, and non-negative
      exactly when the full prompt, the user input and the last step fit the
      limit together. */
  function TurnBudget(settings: PromptSettings, goals: seq<string>, userInput: string, messages: seq<Message>): (r: int)
    ensures r <= settings.sendTokenLimit
    ensures var tc := settings.tokenCounter;
      var base := ConstructFullPrompt(settings.texts, goals, settings.tools, settings.outputDir);
      r >= 0 <==> tc(base) + tc(userInput) + tc(LastStep(messages)) <= settings.sendTokenLimit
  {
    var tc := settings.tokenCounter;
    Available(settings.sendTokenLimit,
              tc(ConstructFullPrompt(settings.texts, goals, settings.tools, settings.outputDir)),
              tc(userInput), tc(LastStep(messages)))
  }

  /** `format_messages(goals=..., user_input=..., messages=...)`. The code
      context is the one the transcript determines; what is kept of it is
      the longest suffix (the entries of the oldest-edited files) whose
      tokens fit the budget; the turn fails with StopIteration exactly when
      the mandatory parts alone exceed the limit. */
  method FormatMessages(settings: PromptSettings, goals: seq<string>, userInput: string, messages: seq<Message>)
    returns (r: Result<seq<Message>>, ghost codeContext: seq<Entry>, ghost kept: seq<Entry>)
    ensures IsCodeContextOf(codeContext, messages)
    ensures r.Ok? <==> TurnBudget(settings, goals, userInput, messages) >= 0
    ensures r.Err? ==> r.error == StopIteration
    ensures r.Ok? ==> |kept| <= |codeContext| && kept == codeContext[|codeContext| - |kept|..]
    ensures r.Ok? ==> TokenSum(kept, settings.tokenCounter) <= TurnBudget(settings, goals, userInput, messages)
    ensures r.Ok? ==> forall j :: 0 <= j < |codeContext| - |kept| ==>
      TokenSum(codeContext[j..], settings.tokenCounter) > TurnBudget(settings, goals, userInput, messages)
    ensures r.Ok? ==> r.value == Assemble(
      ConstructFullPrompt(settings.texts, goals, settings.tools, settings.outputDir),
      kept, LastStep(messages), userInput)
  {
    var basePrompt := ConstructFullPrompt(settings.texts, goals, settings.tools, settings.outputDir);
    var usedTokens := settings.tokenCounter(basePrompt);
    var inputMessageTokens := settings.tokenCounter(userInput);
    var ctx := ExtractCodeContext(messages);
    codeContext := ctx;
    var lastStep := LastStep(messages);
    var lastStepTokens := settings.tokenCounter(lastStep);
    var availableTokens := Available(settings.sendTokenLimit, usedTokens, inputMessageTokens, lastStepTokens);
    var fitted := FitToBudget(ctx, settings.tokenCounter, availableTokens);
    if fitted.Err? {
      kept := [];
      r := Err(fitted.error);
      return;
    }
    kept := fitted.value;
    r := Ok(Assemble(basePrompt, fitted.value, lastStep, userInput));
  }
}
