/**
 * Turning a result table into a narrative: the insight prompt, and the
 * choice, made by the `USE_TINYLLAMA_LOCAL` setting, between the local
 * TinyLlama narrator and the chat-completion API.
 */
module InsightGenerator {
  import opened Wrappers
  import opened Text
  import opened Tables
  import opened Retriever
  import opened Services
  import DataRunner
  import Config
  import TinyLlamaNarrative

  /** The system message of the chat-completion path. */
  const InsightSystemPrompt: string :=
    "\n" +
    "You are a senior supply chain and business analyst.\n" +
    "\n" +
    "Given:\n" +
    "- A business question\n" +
    "- A preview of tabular results (grouped metrics)\n" +
    "- Simple summary statistics\n" +
    "- Domain context (schema, " +
    "metric definitions, business playbook)\n" +
    "\n" +
    "You must produce:\n" +
    "1. 2\U{2013}3 bullet points executive summary (clear, " +
    "non-technical).\n" +
    "2. A short technical explanation (1\U{2013}2 paragraphs) describing how the metric was calculated and segmented.\n" +
    "3. 1\U{2013}2 recommended next actions for operations, " +
    "logistics, or business stakeholders.\n" +
    "\n" +
    "Be concise.\n" +
    "Do NOT invent metrics that are not supported by the results.\n"

  const BusinessHeading: string := "Business question:"
  const PreviewHeading: string := "Results preview (first rows or aggregates):"
  const StatsHeading: string := "Summary stats (JSON-like):"
  const DomainHeading: string := "Domain context:"

  /** The request that closes the insight prompt. */
  const RespondBlock: string :=
    "Now respond with:\n" +
    "1. Executive summary (2\U{2013}3 bullet points).\n" +
    "2. Technical explanation.\n" +
    "3. Recommended next actions.\n"

  /** Documents retrieved for a narrative, and rows shown in the preview. */
  const InsightTopK: nat := 5
  const PreviewRows: nat := 10

  /**
   * The f-string of `build_insight_prompt` before `dedent`, line by line: it
   * opens with a line break, and each part follows its heading and is
   * followed by a blank line; the closing request ends it.
   */
  function InsightTemplate(question: string, preview: string, stats: string, context: string, closing: string): string {
    Ln("", Ln(BusinessHeading, Ln(question, Ln("", Ln(PreviewHeading, Ln(preview, Ln("",
      Ln(StatsHeading, Ln(stats, Ln("", Ln(DomainHeading, Ln(context, Ln("", closing)))))))))))))
  }

  /**
   * `build_insight_prompt`: the dedented prompt together with the joined
   * context texts it was built from.
   */
  function BuildInsightPrompt(question: string, preview: string, stats: string, docs: seq<Doc>): (string, string) {
    var context := ContextText(docs);
    (Dedent(InsightTemplate(question, preview, stats, context, RespondBlock)), context)
  }

  lemma HeadingsAreLines()
    ensures ClearBlankLines(BusinessHeading) == BusinessHeading && Lines(BusinessHeading) == [BusinessHeading]
    ensures ClearBlankLines(PreviewHeading) == PreviewHeading
    ensures ClearBlankLines(StatsHeading) == StatsHeading
    ensures ClearBlankLines(DomainHeading) == DomainHeading
  {
    assert '\n' !in BusinessHeading;
    assert '\n' !in PreviewHeading;
    assert '\n' !in StatsHeading;
    assert '\n' !in DomainHeading;
    HeadingUnchanged(BusinessHeading);
    HeadingUnchanged(PreviewHeading);
    HeadingUnchanged(StatsHeading);
    HeadingUnchanged(DomainHeading);
  }

  /** dedent removes no indentation here: the line "Business question:" starts at the margin. */
  lemma InsightTemplateHasNoMargin(q: string, p: string, st: string, c: string, closing: string)
    ensures Dedent(InsightTemplate(q, p, st, c, closing)) == ClearBlankLines(InsightTemplate(q, p, st, c, closing))
  {
    HeadingsAreLines();
    var h := BusinessHeading;
    var rest := Ln(q, Ln("", Ln(PreviewHeading, Ln(p, Ln("",
                  Ln(StatsHeading, Ln(st, Ln("", Ln(DomainHeading, Ln(c, Ln("", closing)))))))))));
    LinesAppend("", Ln(h, rest));
    LinesAppend(h, rest);
    assert Lines(InsightTemplate(q, p, st, c, closing))[1] == h;
    DedentWithoutMargin(InsightTemplate(q, p, st, c, closing), 1);
  }

  /** Emptying blank lines leaves the headings and acts on each filled-in part separately. */
  lemma InsightTemplateBlankLines(q: string, p: string, st: string, c: string, closing: string)
    ensures ClearBlankLines(InsightTemplate(q, p, st, c, closing))
      == InsightTemplate(ClearBlankLines(q), ClearBlankLines(p), ClearBlankLines(st), ClearBlankLines(c),
                         ClearBlankLines(closing))
  {
    HeadingsAreLines();
    assert ClearBlankLines("") == "";
    var r12 := Ln("", closing);
    var r11 := Ln(c, r12);
    var r10 := Ln(DomainHeading, r11);
    var r9 := Ln("", r10);
    var r8 := Ln(st, r9);
    var r7 := Ln(StatsHeading, r8);
    var r6 := Ln("", r7);
    var r5 := Ln(p, r6);
    var r4 := Ln(PreviewHeading, r5);
    var r3 := Ln("", r4);
    var r2 := Ln(q, r3);
    var r1 := Ln(BusinessHeading, r2);
    ClearBlankLinesAppend("", r1);
    ClearBlankLinesAppend(BusinessHeading, r2);
    ClearBlankLinesAppend(q, r3);
    ClearBlankLinesAppend("", r4);
    ClearBlankLinesAppend(PreviewHeading, r5);
    ClearBlankLinesAppend(p, r6);
    ClearBlankLinesAppend("", r7);
    ClearBlankLinesAppend(StatsHeading, r8);
    ClearBlankLinesAppend(st, r9);
    ClearBlankLinesAppend("", r10);
    ClearBlankLinesAppend(DomainHeading, r11);
    ClearBlankLinesAppend(c, r12);
    ClearBlankLinesAppend("", closing);
  }

  /**
   * The pair `build_insight_prompt` returns: the question, the preview, the
   * stats and the context in that order under their headings, with dedent's
   * only effect being that lines of nothing but spaces and tabs are emptied;
   * and the context texts joined by blank lines.
   */
  lemma InsightPromptLayout(question: string, preview: string, stats: string, docs: seq<Doc>)
    ensures BuildInsightPrompt(question, preview, stats, docs).1 == ContextText(docs)
    ensures BuildInsightPrompt(question, preview, stats, docs).0
      == InsightTemplate(ClearBlankLines(question), ClearBlankLines(preview), ClearBlankLines(stats),
                         ClearBlankLines(ContextText(docs)), ClearBlankLines(RespondBlock))
  {
    var c := ContextText(docs);
    InsightTemplateHasNoMargin(question, preview, stats, c, RespondBlock);
    InsightTemplateBlankLines(question, preview, stats, c, RespondBlock);
  }

  // ---------------------------------------------------------------------------
  // generate_insights

  /** The chat request for the narrative: system and user messages, temperature 0.3, no token limit. */
  function InsightRequest(model: string, prompt: string): ChatRequest {
    ChatRequest(model, [Message("system", InsightSystemPrompt), Message("user", prompt)], 0.3, None)
  }

  /** `result_df.head(10).to_markdown()`. */
  function Preview(w: World, resultDf: Table): string {
    w.toMarkdown(Head(resultDf, PreviewRows))
  }

  /**
   * `generate_insights(question, result_df, summary_stats)`: five documents
   * are retrieved and the prompt is built; with the TinyLlama setting on, the
   * local narrator's answer is the narrative, otherwise the chat reply's
   * first choice, stripped.
   */
  function GenerateInsights(w: World, question: string, resultDf: Table, stats: DataRunner.SummaryStats): (s: Step<string>)
    ensures |s.effects| >= 1 && s.effects[0] == Retrieve(question, InsightTopK)
    ensures w.retrieve(question, InsightTopK).Err? ==>
      s == Step([Retrieve(question, InsightTopK)], Err(w.retrieve(question, InsightTopK).error))
    // the local path: the narrator gets the same context texts, and its answer is passed on unchanged
    ensures w.retrieve(question, InsightTopK).Ok? && Config.UseTinyLlamaLocal(w.env) ==>
      var built := BuildInsightPrompt(question, Preview(w, resultDf), w.showStats(stats), w.retrieve(question, InsightTopK).value);
      var told := TinyLlamaNarrative.Narrative(w, question, Preview(w, resultDf), w.showStats(stats), built.1);
      && s.effects == [Retrieve(question, InsightTopK),
                       Generate(TinyLlamaNarrative.NarrativePrompt(question, Preview(w, resultDf), w.showStats(stats), built.1),
                                TinyLlamaNarrative.MaxNewTokens)]
      && s.result == told.result
    // the chat path: the built prompt goes to the configured model
    ensures w.retrieve(question, InsightTopK).Ok? && !Config.UseTinyLlamaLocal(w.env) ==>
      var built := BuildInsightPrompt(question, Preview(w, resultDf), w.showStats(stats), w.retrieve(question, InsightTopK).value);
      var request := InsightRequest(Config.LlmModelName(w.env), built.0);
      && s.effects == [Retrieve(question, InsightTopK), Chat(request)]
      // a failed chat is the call's error; otherwise the first choice's content, or its absence, is the result
      && (w.chat(request).Err? ==> s.result == Err(w.chat(request).error))
      && (w.chat(request).Ok? ==> s.result == FirstContent(w.chat(request).value))
    ensures s.result.Ok? ==> Stripped(s.result.value)
  {
    match w.retrieve(question, InsightTopK)
    case Err(e) => Step([Retrieve(question, InsightTopK)], Err(e))
    case Ok(docs) =>
      var preview := Preview(w, resultDf);
      var told := Dispatch(w, question, preview, w.showStats(stats), BuildInsightPrompt(question, preview, w.showStats(stats), docs));
      AfterRetrieval(Retrieve(question, InsightTopK), told.effects);
      Step([Retrieve(question, InsightTopK)] + told.effects, told.result)
  }

  /** Proof helper for GenerateInsights: one effect logged after the retrieval gives a log of two. */
  lemma AfterRetrieval(first: Effect, rest: seq<Effect>)
    requires |rest| == 1
    ensures [first] + rest == [first, rest[0]]
  {
  }

  /**
   * The branch on `USE_TINYLLAMA_LOCAL`, once the prompt and the context texts
   * are built: the local narrator is given the same context texts, or the
   * chat model is sent the prompt.
   */
  function Dispatch(w: World, question: string, preview: string, statsText: string, built: (string, string)): (s: Step<string>)
    ensures Config.UseTinyLlamaLocal(w.env) ==>
      && s.effects == [Generate(TinyLlamaNarrative.NarrativePrompt(question, preview, statsText, built.1),
                                TinyLlamaNarrative.MaxNewTokens)]
      && s.result == TinyLlamaNarrative.Narrative(w, question, preview, statsText, built.1).result
    ensures !Config.UseTinyLlamaLocal(w.env) ==>
      var reply := w.chat(InsightRequest(Config.LlmModelName(w.env), built.0));
      && s.effects == [Chat(InsightRequest(Config.LlmModelName(w.env), built.0))]
      && (reply.Err? ==> s.result == Err(reply.error))
      && (reply.Ok? ==> s.result == FirstContent(reply.value))
    ensures |s.effects| == 1
    ensures s.result.Ok? ==> Stripped(s.result.value)
  {
    if Config.UseTinyLlamaLocal(w.env) then
      TinyLlamaNarrative.Narrative(w, question, preview, statsText, built.1)
    else
      var request := InsightRequest(Config.LlmModelName(w.env), built.0);
      match w.chat(request)
      case Err(e) => Step([Chat(request)], Err(e))
      case Ok(reply) => Step([Chat(request)], FirstContent(reply))
  }

  /** With the TinyLlama setting on, the chat model is never asked. */
  lemma LocalNarratorOnly(w: World, question: string, resultDf: Table, stats: DataRunner.SummaryStats)
    requires Config.UseTinyLlamaLocal(w.env)
    ensures forall e :: e in GenerateInsights(w, question, resultDf, stats).effects ==> !e.Chat?
  {
    var s := GenerateInsights(w, question, resultDf, stats);
    if w.retrieve(question, InsightTopK).Ok? {
      assert s.effects[1].Generate?;
    }
  }

  /** With the TinyLlama setting off, the local narrator is never asked. */
  lemma ChatNarratorOnly(w: World, question: string, resultDf: Table, stats: DataRunner.SummaryStats)
    requires !Config.UseTinyLlamaLocal(w.env)
    ensures forall e :: e in GenerateInsights(w, question, resultDf, stats).effects ==> !e.Generate?
  {
    var s := GenerateInsights(w, question, resultDf, stats);
    if w.retrieve(question, InsightTopK).Ok? {
      assert s.effects[1].Chat?;
    }
  }

  /** Only the first ten rows of the result table reach the narrative. */
  lemma PreviewOfFirstRows(w: World, question: string, t1: Table, t2: Table, stats: DataRunner.SummaryStats)
    requires t1.columns == t2.columns
    requires |t1.rows| >= PreviewRows && |t2.rows| >= PreviewRows && t1.rows[..PreviewRows] == t2.rows[..PreviewRows]
    ensures GenerateInsights(w, question, t1, stats) == GenerateInsights(w, question, t2, stats)
  {
    assert Head(t1, PreviewRows) == Head(t2, PreviewRows);
  }
}
