/** `TextSummarizer`: the choice of the per-chunk and the reduce prompt
    template by summary type, and the map template derived from the first. */
module Summarizer {
  import opened Results
  import opened Text

  /** The class attributes `CLI_TEMPLATE` and `MEMORY_TEMPLATE` (the closing
      instruction of every template) and the first line of each of the four
      templates. */
  datatype SummaryTexts = SummaryTexts(
    cliTemplate: string,
    memoryTemplate: string,
    cliHeader: string,
    memoryHeader: string,
    cliReduceHeader: string,
    memoryReduceHeader: string)

  /** The texts as the source writes them, after `textwrap.dedent`. */
  function SourceSummaryTexts(): SummaryTexts {
    SummaryTexts(
      cliTemplate :=
        "\nSummarize the output like 'The commands <succeeded/failed> with the message <output summary>'.\n",
      memoryTemplate :=
        "Summarize each step concisely and highlight the result.\n            For npm test output, describe the error in detail including the file name, line number and code snippets.\n            Ignore any suggestions, warnings, security vulnerabilities, dependency/audit issues. \n            Start with '- I successfully executed the <command> ' ",
      cliHeader := "The following is the output of a cli command:",
      memoryHeader := "The following is the log of steps already completed. ",
      cliReduceHeader := "The following is a set of summaries from CLI commands:",
      memoryReduceHeader := "The following is a set of summaries from memory logs:")
  }

  /** The indentation the template bodies keep: their first line starts at
      the left margin, so `textwrap.dedent` removes nothing. */
  const Indent: string := "            "

  const TextPlaceholder: string := "{text}"
  const DocsPlaceholder: string := "{docs}"
  const SummariesPlaceholder: string := "{doc_summaries}"

  /** The placeholder between an opening and a closing tag, each on its own
      indented line. */
  function Wrapped(tag: string, placeholder: string): (r: string)
    ensures OccursAt(r, placeholder, |"<" + tag + ">\n" + Indent|)
  {
    var open := "<" + tag + ">\n" + Indent;
    var close := "\n" + Indent + "</" + tag + ">";
    ConcatParts(open, placeholder, close);
    open + placeholder + close
  }

  /** A template: the first line, a blank line, the wrapped placeholder, a
      blank line and the closing instruction. */
  function Template(header: string, tag: string, placeholder: string, instruction: string): (r: string)
    ensures Occurs(r, placeholder)
    ensures OccursAt(r, Wrapped(tag, placeholder), |header + "\n\n" + Indent|)
    ensures EndsWith(r, "\n\n" + instruction)
  {
    var head := header + "\n\n" + Indent;
    ConcatParts(head, Wrapped(tag, placeholder), "\n\n" + instruction);
    OccursAtWithin(head + Wrapped(tag, placeholder) + ("\n\n" + instruction), Wrapped(tag, placeholder),
                   placeholder, |head|, |"<" + tag + ">\n" + Indent|);
    head + Wrapped(tag, placeholder) + ("\n\n" + instruction)
  }

  /** What follows the blank line after the closing tag. The memory
      instruction keeps the indentation of its line; the CLI instruction
      starts with a newline, which leaves that line blank, and
      `textwrap.dedent` empties a blank line. */
  function InstructionBlock(texts: SummaryTexts, summaryType: string): string {
    if summaryType == "cli" then texts.cliTemplate else Indent + texts.memoryTemplate
  }

  /** `get_prompt_template(summary_type)`: the per-chunk template, with the
      `{text}` placeholder between `<output>` tags. */
  function GetPromptTemplate(texts: SummaryTexts, summaryType: string): (r: Result<string>)
    ensures r.Ok? <==> summaryType == "cli" || summaryType == "memory"
    ensures r.Err? ==> r.error == ValueError("Invalid summary type")
    ensures r.Ok? ==> Occurs(r.value, Wrapped("output", TextPlaceholder)) && Occurs(r.value, TextPlaceholder)
    ensures summaryType == "cli" ==> EndsWith(r.value, texts.cliTemplate)
    ensures summaryType == "memory" ==> EndsWith(r.value, texts.memoryTemplate)
  {
    if summaryType == "cli" then
      EndsWithPart(Template(texts.cliHeader, "output", TextPlaceholder, texts.cliTemplate), "\n\n", texts.cliTemplate);
      Ok(Template(texts.cliHeader, "output", TextPlaceholder, InstructionBlock(texts, summaryType)))
    else if summaryType == "memory" then
      var t := Template(texts.memoryHeader, "output", TextPlaceholder, InstructionBlock(texts, summaryType));
      EndsWithPart(t, "\n\n", Indent + texts.memoryTemplate);
      EndsWithPart(t, Indent, texts.memoryTemplate);
      Ok(t)
    else
      Err(ValueError("Invalid summary type"))
  }

  /** `get_reduce_template(summary_type)`: the same dispatch, with the
      `{doc_summaries}` placeholder between `<summaries>` tags. */
  function GetReduceTemplate(texts: SummaryTexts, summaryType: string): (r: Result<string>)
    ensures r.Ok? <==> summaryType == "cli" || summaryType == "memory"
    ensures r.Err? ==> r.error == ValueError("Invalid summary type")
    ensures r.Ok? ==> Occurs(r.value, Wrapped("summaries", SummariesPlaceholder)) && Occurs(r.value, SummariesPlaceholder)
    ensures summaryType == "cli" ==> EndsWith(r.value, texts.cliTemplate)
    ensures summaryType == "memory" ==> EndsWith(r.value, texts.memoryTemplate)
  {
    if summaryType == "cli" then
      EndsWithPart(Template(texts.cliReduceHeader, "summaries", SummariesPlaceholder, texts.cliTemplate), "\n\n", texts.cliTemplate);
      Ok(Template(texts.cliReduceHeader, "summaries", SummariesPlaceholder, InstructionBlock(texts, summaryType)))
    else if summaryType == "memory" then
      var t := Template(texts.memoryReduceHeader, "summaries", SummariesPlaceholder, InstructionBlock(texts, summaryType));
      EndsWithPart(t, "\n\n", Indent + texts.memoryTemplate);
      EndsWithPart(t, Indent, texts.memoryTemplate);
      Ok(t)
    else
      Err(ValueError("Invalid summary type"))
  }

  /** Both templates of a summary type exist together and close with the
      same instruction block after a blank line. */
  lemma TemplatesShareInstruction(texts: SummaryTexts, summaryType: string)
    ensures GetPromptTemplate(texts, summaryType).Ok? <==> GetReduceTemplate(texts, summaryType).Ok?
    ensures GetPromptTemplate(texts, summaryType).Ok? ==>
      EndsWith(GetPromptTemplate(texts, summaryType).value, "\n\n" + InstructionBlock(texts, summaryType))
      && EndsWith(GetReduceTemplate(texts, summaryType).value, "\n\n" + InstructionBlock(texts, summaryType))
  {
  }

  /** `"{text}"` and `"{docs}"` meet the conditions under which replacing
      one by the other leaves none of the first. */
  lemma PlaceholdersDiffer()
    ensures |DocsPlaceholder| >= |TextPlaceholder| && DocsPlaceholder[..|TextPlaceholder|] != TextPlaceholder
    ensures DocsPlaceholder[0] == TextPlaceholder[0]
    ensures forall i :: 1 <= i < |TextPlaceholder| ==> TextPlaceholder[i] != TextPlaceholder[0]
    ensures forall i :: 1 <= i < |DocsPlaceholder| ==> DocsPlaceholder[i] != TextPlaceholder[0]
  {
    assert DocsPlaceholder[1] != TextPlaceholder[1];
  }

  /** The map template of `__init__`: the per-chunk template with every
      `{text}` replaced by `{docs}`, the variable the map chain fills. It
      holds `{docs}` and no `{text}`. */
  function MapTemplate(texts: SummaryTexts, summaryType: string): (r: Result<string>)
    ensures r.Ok? <==> summaryType == "cli" || summaryType == "memory"
    ensures r.Err? ==> r.error == ValueError("Invalid summary type")
    ensures r.Ok? ==> Occurs(r.value, DocsPlaceholder) && !Occurs(r.value, TextPlaceholder)
  {
    match GetPromptTemplate(texts, summaryType)
    case Ok(t) =>
      ReplaceAllKeepsReplacement(t, TextPlaceholder, DocsPlaceholder);
      PlaceholdersDiffer();
      ReplaceAllRemovesPattern(t, TextPlaceholder, DocsPlaceholder);
      Ok(ReplaceAll(t, TextPlaceholder, DocsPlaceholder))
    case Err(e) => Err(e)
  }
}
