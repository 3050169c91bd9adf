/**
 * Generating pandas code for a question: retrieval of four context documents,
 * the keyword intent that selects extra guidance, the prompt layout, the chat
 * request and the removal of markdown fences from the reply.
 */
module CodeGenerator {
  import opened Wrappers
  import opened Text
  import opened Retriever
  import opened Services
  import Config

  /** The system message sent with every code-generation request. */
  const SystemPrompt: string :=
    "\n" +
    "You are a supply chain data analytics assistant.\n" +
    "\n" +
    "You generate Python pandas code to answer questions about a DataFrame called df.\n" +
    "The DataFrame contains supply chain order line data with columns such as:\n" +
    "\n" +
    "- order_id, order_date, shipping_date\n" +
    "- order_region, order_country, order_city, order_state\n" +
    "- customer_segment, market, category_name, " +
    "department_name, product_name\n" +
    "- days_for_shipment_scheduled, days_for_shipping_real, " +
    "shipping_delay_days, on_time_delivery\n" +
    "- sales, benefit_per_order, order_profit_per_order\n" +
    "- order_item_quantity, order_item_total, " +
    "order_item_discount, order_item_discount_rate\n" +
    "\n" +
    "CRITICAL RULES:\n" +
    "1. ALWAYS aggregate data - NEVER return raw rows\n" +
    "2. Use groupby() for comparison questions\n" +
    "3. The final result MUST be stored in a variable named result_df\n" +
    "4. result_df should have 1-20 rows max (aggregated summary)\n" +
    "5. For correlation questions, " +
    "use groupby to show average metrics by category\n" +
    "6. Sort results by the metric (descending) to show top performers first\n" +
    "7. Do NOT print anything\n" +
    "8. Do NOT include backticks or markdown\n" +
    "9. Do NOT return more than 100 rows\n" +
    "\n" +
    "Examples:\n" +
    "- \"Which category has most orders?\" \U{2192} " +
    "df.groupby('category_name')['order_id'].count()" +
    ".sort_values(ascending=False).head(10).reset_index()\n" +
    "- \"What factors correlate with high profit?\" \U{2192} " +
    "df.groupby('category_name')['order_profit_per_order'].mean()" +
    ".sort_values(ascending=False).head(10).reset_index()\n" +
    "- \"Average sales by region\" \U{2192} " +
    "df.groupby('order_region')['sales'].mean()" +
    ".sort_values(ascending=False).reset_index()\n"

  const CorrelationGuidance: string :=
    "\n" +
    "IMPORTANT: This is a correlation/factors question.\n" +
    "- Use groupby to aggregate metrics by categorical dimension\n" +
    "- Calculate AVERAGE/MEAN for numeric metrics\n" +
    "- Sort descending to show highest values first\n" +
    "- Limit to top 10-15 results\n" +
    "- Example: df.groupby('category_name')['order_profit_per_order'].mean()" +
    ".sort_values(ascending=False).head(10).reset_index()\n"

  const RankingGuidance: string :=
    "\n" +
    "IMPORTANT: This is a ranking/comparison question.\n" +
    "- Use groupby + count() or sum() or mean()\n" +
    "- Sort descending\n" +
    "- Limit to top 10 results\n" +
    "- Always use reset_index() to get a clean DataFrame\n"

  const RateGuidance: string :=
    "\n" +
    "IMPORTANT: This is a rate/percentage calculation.\n" +
    "- Calculate the percentage or rate using appropriate formula\n" +
    "- Group by the dimension asked (region, category, etc.)\n" +
    "- Sort to show best/worst performers\n"

  const InstructionsBlock: string :=
    "Instructions:\n" +
    "- Write pandas code using df (the orders DataFrame)\n" +
    "- MUST use groupby + aggregation (count, sum, mean, etc.)\n" +
    "- MUST sort results to show top performers first\n" +
    "- MUST limit to 10-20 rows maximum\n" +
    "- The final result MUST be assigned to result_df\n" +
    "- result_df should be a clean DataFrame with 2-3 columns\n" +
    "- Use .reset_index() to convert Series to DataFrame\n" +
    "- Use .head(10) or .head(15) to limit rows\n" +
    "\n" +
    "Write ONLY the Python code. No explanation. No markdown. No backticks.\n"

  /** The kind of question, from keywords in the lower-cased question. */
  datatype Intent = Correlation | Ranking | Rate | General

  /** Keyword tests, checked in this order; the first that matches decides. */
  predicate AsksCorrelation(ql: string) {
    Contains(ql, "correlate") || Contains(ql, "factors")
  }

  predicate AsksRanking(ql: string) {
    Contains(ql, "most") || Contains(ql, "highest") || Contains(ql, "top") || Contains(ql, "which")
  }

  predicate AsksRate(ql: string) {
    Contains(ql, "rate") || Contains(ql, "percentage")
  }

  /** The if/elif chain of `build_prompt` over the lower-cased question. */
  function Classify(question: string): Intent {
    var ql := Lower(question);
    if AsksCorrelation(ql) then Correlation
    else if AsksRanking(ql) then Ranking
    else if AsksRate(ql) then Rate
    else General
  }

  /** Each intent is chosen exactly when its keywords occur and no earlier test matched. */
  lemma ClassifyPriority(question: string)
    ensures var ql := Lower(question);
      && (Classify(question) == Correlation <==> AsksCorrelation(ql))
      && (Classify(question) == Ranking <==> !AsksCorrelation(ql) && AsksRanking(ql))
      && (Classify(question) == Rate <==> !AsksCorrelation(ql) && !AsksRanking(ql) && AsksRate(ql))
      && (Classify(question) == General <==> !AsksCorrelation(ql) && !AsksRanking(ql) && !AsksRate(ql))
  {
  }

  /** The guidance paragraph for an intent; none for a general question. */
  function Guidance(intent: Intent): string {
    match intent
    case Correlation => CorrelationGuidance
    case Ranking => RankingGuidance
    case Rate => RateGuidance
    case General => ""
  }

  /** Lower-casing works character by character, so it distributes over concatenation. */
  lemma LowerAppend(a: string, b: string)
    ensures Lower(a + b) == Lower(a) + Lower(b)
  {
  }

  /** A text with no capital letters is its own lower case. */
  lemma LowerOfLowercase(s: string)
    requires forall k :: 0 <= k < |s| ==> !('A' <= s[k] <= 'Z')
    ensures Lower(s) == s
  {
  }

  lemma TopicHasTop(before: string, after: string)
    ensures Contains(Lower(before + "topic" + after), "top")
  {
    LowerAppend(before + "topic", after);
    LowerAppend(before, "topic");
    LowerOfLowercase("topic");
    assert Lower(before + "topic" + after) == Lower(before) + "top" + ("ic" + Lower(after));
    ContainsPart(Lower(before), "top", "ic" + Lower(after));
  }

  /**
   * Keywords are matched as substrings: a question that mentions a "topic"
   * and has no correlation keyword is a ranking question, because "topic"
   * contains "top".
   */
  lemma TopicIsRanking(before: string, after: string)
    requires !AsksCorrelation(Lower(before + "topic" + after))
    ensures Classify(before + "topic" + after) == Ranking
  {
    TopicHasTop(before, after);
  }

  /** Upper-case keywords count too, since the question is lower-cased first. */
  lemma UpperCaseKeyword(before: string, after: string)
    ensures Classify(before + "FACTORS" + after) == Correlation
  {
    LowerAppend(before + "FACTORS", after);
    LowerAppend(before, "FACTORS");
    assert Lower("FACTORS") == "factors";
    ContainsPart(Lower(before), "factors", Lower(after));
    assert AsksCorrelation(Lower(before + "FACTORS" + after));
  }

  // ---------------------------------------------------------------------------
  // The prompt

  const ContextHeading: string := "Context (schema and metrics):"
  const QuestionHeading: string := "User question:"

  /** The f-string of `build_prompt` before `dedent`, with the instructions that close it. */
  function PromptTemplate(context: string, question: string, guidance: string, instructions: string): string {
    "\n" + ContextHeading + "\n" + context + "\n\n" + QuestionHeading + "\n" + question + "\n\n"
    + guidance + "\n\n" + instructions
  }

  /** `build_prompt(question, docs)`. */
  function BuildPrompt(question: string, docs: seq<Doc>): string {
    Dedent(PromptTemplate(ContextText(docs), question, Guidance(Classify(question)), InstructionsBlock))
  }

  /** The template, line by line. */
  lemma TemplateLines(c: string, q: string, g: string, ins: string)
    ensures PromptTemplate(c, q, g, ins)
      == Ln("", Ln(ContextHeading, Ln(c, Ln("", Ln(QuestionHeading, Ln(q, Ln("", Ln(g, Ln("", ins)))))))))
  {
    assert "\n\n" == "\n" + "" + "\n";
  }

  /** dedent of the template removes no indentation: the heading "Context (schema and metrics):" starts a line. */
  lemma TemplateHasNoMargin(c: string, q: string, g: string, ins: string)
    ensures Dedent(PromptTemplate(c, q, g, ins)) == ClearBlankLines(PromptTemplate(c, q, g, ins))
  {
    var h1 := ContextHeading;
    assert '\n' !in h1;
    HeadingUnchanged(h1);
    var r2 := Ln(c, Ln("", Ln(QuestionHeading, Ln(q, Ln("", Ln(g, Ln("", ins)))))));
    TemplateLines(c, q, g, ins);
    LinesAppend("", Ln(h1, r2));
    LinesAppend(h1, r2);
    assert Lines(PromptTemplate(c, q, g, ins))[1] == h1;
    DedentWithoutMargin(PromptTemplate(c, q, g, ins), 1);
  }

  /** Emptying blank lines leaves the headings and acts on each filled-in part separately. */
  lemma TemplateBlankLines(c: string, q: string, g: string, ins: string)
    ensures ClearBlankLines(PromptTemplate(c, q, g, ins))
      == PromptTemplate(ClearBlankLines(c), ClearBlankLines(q), ClearBlankLines(g), ClearBlankLines(ins))
  {
    var h1, h2 := ContextHeading, QuestionHeading;
    assert '\n' !in h1;
    assert '\n' !in h2;
    HeadingUnchanged(h1);
    HeadingUnchanged(h2);
    assert ClearBlankLines("") == "";
    var r8 := Ln("", ins);
    var r7 := Ln(g, r8);
    var r6 := Ln("", r7);
    var r5 := Ln(q, r6);
    var r4 := Ln(h2, r5);
    var r3 := Ln("", r4);
    var r2 := Ln(c, r3);
    var r1 := Ln(h1, r2);
    TemplateLines(c, q, g, ins);
    TemplateLines(ClearBlankLines(c), ClearBlankLines(q), ClearBlankLines(g), ClearBlankLines(ins));
    ClearBlankLinesAppend("", r1);
    ClearBlankLinesAppend(h1, r2);
    ClearBlankLinesAppend(c, r3);
    ClearBlankLinesAppend("", r4);
    ClearBlankLinesAppend(h2, r5);
    ClearBlankLinesAppend(q, r6);
    ClearBlankLinesAppend("", r7);
    ClearBlankLinesAppend(g, r8);
    ClearBlankLinesAppend("", ins);
  }

  /**
   * The prompt `build_prompt` returns: the context, the question and the
   * guidance in that order between the fixed headings, with dedent's only
   * effect being that lines of nothing but spaces and tabs are emptied.
   */
  lemma PromptLayout(question: string, docs: seq<Doc>)
    ensures BuildPrompt(question, docs)
      == PromptTemplate(ClearBlankLines(ContextText(docs)), ClearBlankLines(question),
                        ClearBlankLines(Guidance(Classify(question))), ClearBlankLines(InstructionsBlock))
  {
    var c, g := ContextText(docs), Guidance(Classify(question));
    TemplateHasNoMargin(c, question, g, InstructionsBlock);
    TemplateBlankLines(c, question, g, InstructionsBlock);
  }

  /** A question none of whose lines is blank appears in the prompt exactly as asked. */
  lemma PromptShowsQuestion(question: string, docs: seq<Doc>)
    requires forall k :: 0 <= k < |Lines(question)| ==> !BlankLine(Lines(question)[k])
    ensures BuildPrompt(question, docs)
      == PromptTemplate(ClearBlankLines(ContextText(docs)), question,
                        ClearBlankLines(Guidance(Classify(question))), ClearBlankLines(InstructionsBlock))
  {
    PromptLayout(question, docs);
    ClearBlankLinesNone(question);
  }

  /** A question that matches no keyword gets no guidance: the blank lines around it stay empty. */
  lemma GeneralQuestionHasNoGuidance(question: string)
    requires Classify(question) == General
    ensures ClearBlankLines(Guidance(Classify(question))) == ""
  {
    assert ClearBlankLines("") == "";
  }

  // ---------------------------------------------------------------------------
  // generate_pandas_code

  /** The chat request for the code: system and user messages, temperature 0.1, at most 500 tokens. */
  function CodeRequest(model: string, prompt: string): ChatRequest {
    ChatRequest(model, [Message("system", SystemPrompt), Message("user", prompt)], 0.1, Some(500))
  }

  const CodeTopK: nat := 4

  /** Line 117: delete "```python" (this exact case), then "```", then strip. */
  function FenceCleanup(code: string): (r: string)
    ensures !Contains(r, "```") && Stripped(r)
  {
    var unfenced := Replace(Replace(code, PythonFence, ""), "```", "");
    RemoveFencesLeavesNone(Replace(code, PythonFence, ""));
    StripKeepsNotContained(unfenced, "```");
    Strip(unfenced)
  }

  /**
   * `generate_pandas_code(question)`: four documents are retrieved for the
   * question, the prompt is sent with the configured model name, and the
   * first choice's text is stripped and cleaned of fences.
   */
  function GeneratePandasCode(w: World, question: string): (s: Step<string>)
    ensures |s.effects| >= 1 && s.effects[0] == Retrieve(question, CodeTopK)
    ensures w.retrieve(question, CodeTopK).Err? ==> s == Step([Retrieve(question, CodeTopK)], Err(w.retrieve(question, CodeTopK).error))
    // with the documents retrieved: one chat request, and its reply decides the result
    ensures w.retrieve(question, CodeTopK).Ok? ==>
      var request := CodeRequest(Config.LlmModelName(w.env), BuildPrompt(question, w.retrieve(question, CodeTopK).value));
      && s.effects == [Retrieve(question, CodeTopK), Chat(request)]
      && (s.result.Ok? <==> w.chat(request).Ok? && FirstContent(w.chat(request).value).Ok?)
      && (w.chat(request).Err? ==> s.result == Err(w.chat(request).error))
      && (w.chat(request).Ok? && FirstContent(w.chat(request).value).Err? ==>
            s.result == Err(FirstContent(w.chat(request).value).error))
      && (s.result.Ok? ==> s.result.value == FenceCleanup(FirstContent(w.chat(request).value).value))
    ensures s.result.Ok? ==> !Contains(s.result.value, "```") && Stripped(s.result.value)
  {
    match w.retrieve(question, CodeTopK)
    case Err(e) => Step([Retrieve(question, CodeTopK)], Err(e))
    case Ok(docs) =>
      var request := CodeRequest(Config.LlmModelName(w.env), BuildPrompt(question, docs));
      var effects := [Retrieve(question, CodeTopK), Chat(request)];
      match w.chat(request)
      case Err(e) => Step(effects, Err(e))
      case Ok(reply) =>
        match FirstContent(reply)
        case Err(e) => Step(effects, Err(e))
        case Ok(code) => Step(effects, Ok(FenceCleanup(code)))
  }

  /** The generated code depends on retrieval only through the request for four documents. */
  lemma FourDocumentsRequested(w1: World, w2: World, question: string)
    requires w1.retrieve(question, 4) == w2.retrieve(question, 4)
    requires w1.chat == w2.chat && w1.env == w2.env
    ensures GeneratePandasCode(w1, question) == GeneratePandasCode(w2, question)
  {
  }

  // Removal of "```python" is case-sensitive

  lemma {:induction false} ReplaceNotContained(s: string, pat: string, rep: string)
    requires |pat| > 0 && !Contains(s, pat)
    ensures Replace(s, pat, rep) == s
    decreases |s|
  {
    if |s| >= |pat| {
      assert !OccursAt(s, pat, 0);
      assert !Contains(s[1..], pat) by {
        forall j: nat | j + |pat| <= |s[1..]| ensures !OccursAt(s[1..], pat, j) {
          assert s[1..][j..j + |pat|] == s[j + 1..j + 1 + |pat|];
          assert !OccursAt(s, pat, j + 1);
        }
      }
      ReplaceNotContained(s[1..], pat, rep);
      assert [s[0]] + s[1..] == s;
    }
  }

  const PythonFence: string := "```" + "python"

  /** A block fenced with "```" whose tag is not exactly "python" holds no "```python". */
  lemma NoLowerPythonFence(x: string)
    requires '`' !in x && !(|x| >= 6 && x[..6] == "python")
    ensures !Contains("```" + x + "```", PythonFence)
  {
    var s := "```" + x + "```";
    var p := PythonFence;
    assert p[0] == '`' && p[1] == '`' && p[2] == '`';
    assert p[3..] == "python";
    assert '`' !in "python";
    forall i: nat | i + 9 <= |s| ensures !OccursAt(s, p, i) {
      if i == 0 {
        if |x| >= 6 {
          assert s[..9][3..] == x[..6];
        } else {
          assert s[..9][3 + |x|] == '`';
          assert p[3..][|x|] != '`';
        }
      } else if i < 3 {
        assert s[i..i + 9][3 - i] == x[0];
        assert x[0] != '`';
      } else {
        assert s[i..i + 9][0] == x[i - 3];
        assert x[i - 3] != '`';
      }
    }
  }

  /**
   * A reply fenced as "```" + x + "```" with any tag other than lower-case
   * "python" loses only the fences: a "```Python" block keeps its "Python" line.
   */
  lemma FenceCleanupKeepsOtherTags(x: string)
    requires '`' !in x && !(|x| >= 6 && x[..6] == "python")
    ensures FenceCleanup("```" + x + "```") == Strip(x)
  {
    var s := "```" + x + "```";
    NoLowerPythonFence(x);
    ReplaceNotContained(s, PythonFence, "");
    assert s[..3] == "```";
    assert s[3..] == x + "```";
    ReplaceAfterPrefix(x, "```", "```", "");
    assert Replace("```", "```", "") == "";
    assert Replace(s, "```", "") == x;
  }

  /** The tag that survives: "```Python\n" + body + "```" comes out as "Python\n" + body, stripped. */
  lemma CapitalisedTagSurvives(body: string)
    requires '`' !in body
    ensures FenceCleanup("```Python\n" + body + "```") == Strip("Python\n" + body)
  {
    var x := "Python\n" + body;
    assert ("```Python\n" + body + "```") == "```" + x + "```";
    assert x[0] == 'P';
    if |x| >= 6 { assert x[..6][0] == 'P'; }
    assert '`' !in x by { assert '`' !in "Python\n"; }
    FenceCleanupKeepsOtherTags(x);
  }
}
