/**
 * The synthetic question-and-answer set: each example picks a metric, a
 * segment and a business focus, fills one of four question templates and one
 * of three answer patterns with them, and records all five values. The random
 * picks are supplied by the caller as indices into the lists.
 */
module SyntheticQa {
  import opened Text
  import InstructionRecords
  import TrainFormatting
  import TinyLlamaNarrative

  const Metrics: seq<string> := [
    "on_time_delivery rate",
    "late_delivery_risk percentage",
    "average shipping_delay_days",
    "average benefit_per_order",
    "total sales",
    "average order_item_quantity"
  ]

  const Segments: seq<string> := [
    "customer_segment",
    "order_region",
    "market",
    "category_name",
    "payment_type",
    "shipping_mode"
  ]

  const BusinessFocus: seq<string> := [
    "identify high-risk regions for delays",
    "find the most profitable customer groups",
    "understand where " + "operational bottlenecks exist",
    "optimize shipping strategy",
    "prioritize customers for retention programs"
  ]

  /** The number of examples `generate_dataset` makes when called without one. */
  const DefaultCount: nat := 80

  /** The four question templates, filled in. */
  function Templates(metric: string, segment: string): (ts: seq<string>)
    ensures |ts| == 4
  {
    [ "What is the " + metric + " by " + segment + "?",
      "Compare " + metric + " across different " + segment + ".",
      "Which " + segment + " has the highest " + metric + "?",
      "How does " + metric + " vary across " + segment + " groups?" ]
  }

  /** `generate_question(metric, segment)`, with the template picked by `choice`. */
  function GenerateQuestion(metric: string, segment: string, choice: nat): (q: string)
    requires choice < 4
    ensures q in Templates(metric, segment)
  {
    Templates(metric, segment)[choice]
  }

  /** The fixed sentences of the three answer patterns. */
  const Pattern1Rest: string := " groups show clear differences in "
  const Pattern1Tail: string :=
    ". A few segments stand out with significantly higher values, "
    + "indicating where operations or pricing strategies are working better."
  const Pattern2Rest: string := " is highest for a small subset of "
  const Pattern2Tail: string :=
    ", while most segments cluster around the average. These outliers "
    + "are good candidates for deeper investigation."
  const Pattern3Rest: string := " is unevenly distributed across "
  const Pattern3Tail: string :=
    ". Some segments perform well, while others lag behind, suggesting "
    + "targeted interventions could improve overall performance."

  /** The three answer patterns, filled in. */
  function Patterns(metric: string, segment: string): (ps: seq<string>)
    ensures |ps| == 3
  {
    [ "The " + segment + Pattern1Rest + metric + Pattern1Tail,
      "In general, " + metric + Pattern2Rest + segment + Pattern2Tail,
      "The analysis reveals that " + metric + Pattern3Rest + segment + Pattern3Tail ]
  }

  /** `generate_answer(metric, segment)`, with the pattern picked by `choice`. */
  function GenerateAnswer(metric: string, segment: string, choice: nat): (a: string)
    requires choice < 3
    ensures a in Patterns(metric, segment)
  {
    Patterns(metric, segment)[choice]
  }

  /** A text made of five parts holds its second and its fourth. */
  lemma MentionsBoth(p1: string, x: string, p2: string, y: string, p3: string)
    ensures Contains(p1 + x + p2 + y + p3, x) && Contains(p1 + x + p2 + y + p3, y)
  {
    var t := p1 + x + p2 + y + p3;
    assert t[|p1|..|p1| + |x|] == x;
    assert OccursAt(t, x, |p1|);
    var j := |p1| + |x| + |p2|;
    assert t[j..j + |y|] == y;
    assert OccursAt(t, y, j);
  }

  /** Every question template mentions both the metric and the segment. */
  lemma QuestionMentions(metric: string, segment: string, choice: nat)
    requires choice < 4
    ensures Contains(GenerateQuestion(metric, segment, choice), metric)
    ensures Contains(GenerateQuestion(metric, segment, choice), segment)
  {
    MentionsBoth("What is the ", metric, " by ", segment, "?");
    MentionsBoth("Compare ", metric, " across different ", segment, ".");
    MentionsBoth("Which ", segment, " has the highest ", metric, "?");
    MentionsBoth("How does ", metric, " vary across ", segment, " groups?");
  }

  /** Every answer pattern mentions both the metric and the segment. */
  lemma AnswerMentions(metric: string, segment: string, choice: nat)
    requires choice < 3
    ensures Contains(GenerateAnswer(metric, segment, choice), metric)
    ensures Contains(GenerateAnswer(metric, segment, choice), segment)
  {
    MentionsBoth("The ", segment, Pattern1Rest, metric, Pattern1Tail);
    MentionsBoth("In general, ", metric, Pattern2Rest, segment, Pattern2Tail);
    MentionsBoth("The analysis reveals that ", metric, Pattern3Rest, segment, Pattern3Tail);
  }

  // ---------------------------------------------------------------------------
  // generate_dataset

  /**
   * The random picks of one iteration, in the order they are drawn: metric,
   * segment and focus, then the question template and the answer pattern.
   */
  datatype Draw = Draw(metric: nat, segment: nat, focus: nat, template: nat, pattern: nat)

  /** Picks that `random.choice` could make: each index is within its list. */
  predicate ValidDraw(d: Draw) {
    && d.metric < |Metrics| && d.segment < |Segments| && d.focus < |BusinessFocus|
    && d.template < 4 && d.pattern < 3
  }

  /** One example as the JSON object written: its string fields by key. */
  type Item = map<string, string>

  /** The question of an example: the filled-in template, then the focus as a sentence. */
  function AskFor(question: string, focus: string): string {
    question + " I want to " + focus + "."
  }

  /**
   * The example made from one draw. The metric, segment and focus it records
   * are the very ones its question and answer were built from.
   */
  function ExampleFor(d: Draw): (item: Item)
    requires ValidDraw(d)
    ensures item.Keys == {"question", "answer", "metric", "segment", "focus"}
    ensures item["metric"] in Metrics && item["segment"] in Segments && item["focus"] in BusinessFocus
    ensures item["question"] == AskFor(GenerateQuestion(item["metric"], item["segment"], d.template), item["focus"])
    ensures item["answer"] == GenerateAnswer(item["metric"], item["segment"], d.pattern)
  {
    var metric, segment, focus := Metrics[d.metric], Segments[d.segment], BusinessFocus[d.focus];
    map[ "question" := AskFor(GenerateQuestion(metric, segment, d.template), focus),
         "answer" := GenerateAnswer(metric, segment, d.pattern),
         "metric" := metric,
         "segment" := segment,
         "focus" := focus ]
  }

  /**
   * `generate_dataset(n)`: one example per iteration, `n` of them, in the
   * order drawn. Writing the JSON file is left out.
   */
  method GenerateDataset(n: nat := DefaultCount, draws: seq<Draw>) returns (examples: seq<Item>)
    requires |draws| == n
    requires forall k :: 0 <= k < n ==> ValidDraw(draws[k])
    ensures |examples| == n
    ensures forall k :: 0 <= k < n ==> examples[k] == ExampleFor(draws[k])
  {
    examples := [];
    var i := 0;
    while i < n
      invariant i <= n && |examples| == i
      invariant forall k :: 0 <= k < i ==> examples[k] == ExampleFor(draws[k])
    {
      examples := examples + [ExampleFor(draws[i])];
      i := i + 1;
    }
  }

  /** An example's question mentions its metric, segment and focus, and its answer its metric and segment. */
  lemma ExampleConsistent(d: Draw)
    requires ValidDraw(d)
    ensures var item := ExampleFor(d);
      && Contains(item["question"], item["metric"]) && Contains(item["question"], item["segment"])
      && Contains(item["question"], item["focus"])
      && Contains(item["answer"], item["metric"]) && Contains(item["answer"], item["segment"])
  {
    var item := ExampleFor(d);
    var metric, segment, focus := item["metric"], item["segment"], item["focus"];
    var q := GenerateQuestion(metric, segment, d.template);
    QuestionMentions(metric, segment, d.template);
    AnswerMentions(metric, segment, d.pattern);
    ContainsPart(q + " I want to ", focus, ".");
    AskContains(q, focus, metric);
    AskContains(q, focus, segment);
  }

  lemma AskContains(q: string, focus: string, w: string)
    requires Contains(q, w)
    ensures Contains(AskFor(q, focus), w)
  {
    var s := AskFor(q, focus);
    assert s == q + (" I want to " + focus + ".");
    var i: nat :| i <= |q| && OccursAt(q, w, i);
    assert s[i..i + |w|] == q[i..i + |w|];
    assert OccursAt(s, w, i);
  }

  // ---------------------------------------------------------------------------
  // From generated examples to the "Answer:" protocol

  /** Proof helpers for ListsHaveNoA: one list, or a few entries, each. */
  lemma NoAMetrics() ensures forall k :: 0 <= k < |Metrics| ==> 'A' !in Metrics[k] {}
  lemma NoASegments() ensures forall k :: 0 <= k < |Segments| ==> 'A' !in Segments[k] {}
  lemma NoAFocus1() ensures 'A' !in BusinessFocus[0] && 'A' !in BusinessFocus[1] {}
  lemma NoAFocus2() ensures 'A' !in BusinessFocus[2] {
    assert BusinessFocus[2] == "understand where " + "operational bottlenecks exist";
  }
  lemma NoAFocus3() ensures 'A' !in BusinessFocus[3] && 'A' !in BusinessFocus[4] {}

  /** No list entry has a capital A. */
  lemma ListsHaveNoA()
    ensures forall m :: m in Metrics ==> 'A' !in m
    ensures forall s :: s in Segments ==> 'A' !in s
    ensures forall f :: f in BusinessFocus ==> 'A' !in f
  {
    NoAMetrics(); NoASegments(); NoAFocus1(); NoAFocus2(); NoAFocus3();
  }

  /** A question built from text without a capital A has none either. */
  lemma QuestionHasNoA(metric: string, segment: string, choice: nat, focus: string)
    requires choice < 4
    requires 'A' !in metric && 'A' !in segment && 'A' !in focus
    ensures 'A' !in AskFor(GenerateQuestion(metric, segment, choice), focus)
  {
  }

  /** A generated question never holds "Answer:". */
  lemma GeneratedQuestionHasNoMarker(d: Draw)
    requires ValidDraw(d)
    ensures !Contains(ExampleFor(d)["question"], TinyLlamaNarrative.AnswerMarker)
  {
    var item := ExampleFor(d);
    ListsHaveNoA();
    QuestionHasNoA(item["metric"], item["segment"], d.template, item["focus"]);
    TinyLlamaNarrative.NoMarkerWithoutA(item["question"]);
  }

  /** Each answer starts with a capital letter and ends with a full stop. */
  lemma AnswerStripped(metric: string, segment: string, choice: nat)
    requires choice < 3
    ensures Strip(GenerateAnswer(metric, segment, choice)) == GenerateAnswer(metric, segment, choice)
  {
    var a := GenerateAnswer(metric, segment, choice);
    assert a[0] == (if choice == 1 then 'I' else 'T');
    assert Pattern1Tail[|Pattern1Tail| - 1] == '.';
    assert Pattern2Tail[|Pattern2Tail| - 1] == '.';
    assert Pattern3Tail[|Pattern3Tail| - 1] == '.';
    assert a[|a| - 1] == '.';
    StripOfStripped(a);
  }

  /**
   * From synthetic example to trained text and back: the instruction record
   * for a generated example is built, and the narrator's extraction applied
   * to its training text gives back the example's answer exactly.
   */
  lemma GeneratedExampleRoundTrip(d: Draw)
    requires ValidDraw(d)
    ensures var item := ExampleFor(d);
      && InstructionRecords.RecordFor(item).Ok?
      && var record := InstructionRecords.RecordFor(item).value;
         TinyLlamaNarrative.ExtractAnswer(TrainFormatting.TrainingText(record.instruction, record.output)) == item["answer"]
  {
    var item := ExampleFor(d);
    GeneratedQuestionHasNoMarker(d);
    TrainFormatting.RecordRoundTrip(item);
    AnswerStripped(item["metric"], item["segment"], d.pattern);
  }
}
