/**
 * The local TinyLlama narrator: the memoised loading of the fine-tuned model
 * and its tokenizer, the prompt it is given, and the extraction of the text
 * after the "Answer:" marker from what the model decodes.
 */
module TinyLlamaNarrative {
  import opened Wrappers
  import opened Text
  import opened Services
  import Config

  // ---------------------------------------------------------------------------
  // The "Answer:" marker

  /** The marker that ends every prompt and after which the answer is read. */
  const AnswerMarker: string := "Answer:"

  /** The marker's shape: it starts with a capital A, has no line break, and ends with its only colon. */
  lemma MarkerShape()
    ensures |AnswerMarker| == 7 && AnswerMarker[0] == 'A'
    ensures '\n' !in AnswerMarker && ' ' !in AnswerMarker
    ensures UniqueLast(AnswerMarker)
    ensures !IsSpace(AnswerMarker[0]) && !IsSpace(AnswerMarker[6])
  {
    assert AnswerMarker[..6] == "Answer";
  }

  /**
   * The answer read from the decoded text: what follows the first "Answer:",
   * stripped, or the whole text stripped when there is no marker.
   */
  function ExtractAnswer(full: string): (r: string)
    ensures Stripped(r)
    ensures !Contains(full, AnswerMarker) ==> r == Strip(full)
  {
    if Contains(full, AnswerMarker) then Strip(SplitOnce(full, AnswerMarker)[1]) else Strip(full)
  }

  /** The split is at the first marker: whatever follows it, including further markers, is the answer. */
  lemma AnswerFollowsFirstMarker(before: string, after: string)
    requires !Contains(before, AnswerMarker)
    ensures ExtractAnswer(before + AnswerMarker + after) == Strip(after)
  {
    MarkerShape();
    ContainsPart(before, AnswerMarker, after);
    SplitAtFirst(before, AnswerMarker, after);
  }

  /** A second "Answer:" after the first stays in the answer, since the text is split only once. */
  lemma LaterMarkersKept(before: string, after: string)
    requires !Contains(before, AnswerMarker) && Contains(after, AnswerMarker)
    ensures Contains(ExtractAnswer(before + AnswerMarker + after), AnswerMarker)
  {
    MarkerShape();
    AnswerFollowsFirstMarker(before, after);
    StripKeepsContained(after, AnswerMarker);
  }

  // ---------------------------------------------------------------------------
  // The prompt

  /** The system text, in pieces short enough to reason about one at a time. */
  const System1: string := "You are a senior supply chain "
  const System2: string := "analytics expert. You receive a "
  const System3: string := "business question, a preview of "
  const System4: string := "computed metrics, and some domain "
  const System5: string := "knowledge. You explain the results "
  const System6: string := "clearly and concisely in 3\U{2013}6 "
  const System7: string := "sentences, focusing on the main "
  const System8: string := "patterns and practical actions."
  const System: string := System1 + System2 + System3 + System4 + System5 + System6 + System7 + System8

  /** The request that closes the prompt, before the marker. */
  const Closing1: string := "Write a concise explanation of what "
  const Closing2: string := "the data shows, including 1\U{2013}2 "
  const Closing3: string := "recommended actions for operations "
  const Closing4: string := "or business teams."
  const Closing: string := Closing1 + Closing2 + Closing3 + Closing4

  const QuestionLabel: string := "Question:\n"
  const ResultsLabel: string := "Results (markdown table snippet):\n"
  const StatsLabel: string := "Summary stats (JSON-like):\n"
  const ContextLabel: string := "Domain context:\n"

  /** Default `max_new_tokens` of `generate_narrative_tinyllama`. */
  const MaxNewTokens: nat := 220

  /** A labelled part of the prompt: a blank line, the label line, then the part. */
  function Section(heading: string, part: string): string {
    "\n\n" + heading + part
  }

  /** The closing request between blank lines. */
  const ClosingBlock: string := "\n\n" + Closing + "\n\n"

  /**
   * The prompt of `generate_narrative_tinyllama`: the system text, then the
   * question, the markdown preview, the rendered stats and the domain context
   * under their labels, then the closing request and the marker.
   */
  function NarrativePrompt(question: string, preview: string, stats: string, context: string): (p: string)
    ensures |p| >= |AnswerMarker| && p[|p| - |AnswerMarker|..] == AnswerMarker
  {
    System + Section(QuestionLabel, question) + Section(ResultsLabel, preview)
    + Section(StatsLabel, stats) + Section(ContextLabel, context) + ClosingBlock + AnswerMarker
  }

  /** Proof helpers for FixedTextHasNoA: one literal piece each, so that every check stays small. */
  lemma NoA1() ensures 'A' !in System1 {}
  lemma NoA2() ensures 'A' !in System2 {}
  lemma NoA3() ensures 'A' !in System3 {}
  lemma NoA4() ensures 'A' !in System4 {}
  lemma NoA5() ensures 'A' !in System5 {}
  lemma NoA6() ensures 'A' !in System6 {}
  lemma NoA7() ensures 'A' !in System7 {}
  lemma NoA8() ensures 'A' !in System8 {}
  lemma NoAClosing() ensures 'A' !in Closing1 && 'A' !in Closing2 && 'A' !in Closing3 && 'A' !in Closing4 {}
  lemma NoALabels()
    ensures 'A' !in QuestionLabel && 'A' !in ResultsLabel && 'A' !in StatsLabel && 'A' !in ContextLabel
  {}

  /** Text with no capital A holds no marker. */
  lemma NoMarkerWithoutA(s: string)
    requires 'A' !in s
    ensures !Contains(s, AnswerMarker)
  {
    MarkerShape();
    MissingCharNotContained(s, AnswerMarker, 'A');
  }

  /** The fixed text of the prompt holds no capital A at all. */
  lemma FixedTextHasNoA()
    ensures 'A' !in System && 'A' !in ClosingBlock
    ensures 'A' !in "\n\n" + QuestionLabel && 'A' !in "\n\n" + ResultsLabel
    ensures 'A' !in "\n\n" + StatsLabel && 'A' !in "\n\n" + ContextLabel
  {
    NoA1(); NoA2(); NoA3(); NoA4(); NoA5(); NoA6(); NoA7(); NoA8();
    NoAClosing();
    NoALabels();
  }

  /** Appending a section whose part lacks the marker to a text that lacks it keeps it absent. */
  lemma AppendSection(x: string, heading: string, part: string)
    requires !Contains(x, AnswerMarker) && !Contains(part, AnswerMarker)
    requires 'A' !in "\n\n" + heading && |heading| > 0 && heading[|heading| - 1] == '\n'
    ensures !Contains(x + Section(heading, part), AnswerMarker)
  {
    MarkerShape();
    var h := "\n\n" + heading;
    NoMarkerWithoutA(h);
    NotContainsJoined(h, part, AnswerMarker);
    assert Section(heading, part) == h + part;
    NotContainsJoined(x, h + part, AnswerMarker);
  }

  /** The prompt without its closing marker. */
  function PromptHead(question: string, preview: string, stats: string, context: string): string {
    System + Section(QuestionLabel, question) + Section(ResultsLabel, preview)
    + Section(StatsLabel, stats) + Section(ContextLabel, context) + ClosingBlock
  }

  /**
   * When none of the four parts holds "Answer:", the only marker in the prompt
   * is the one that ends it.
   */
  lemma MarkerOnlyAtEnd(question: string, preview: string, stats: string, context: string)
    requires !Contains(question, AnswerMarker) && !Contains(preview, AnswerMarker)
    requires !Contains(stats, AnswerMarker) && !Contains(context, AnswerMarker)
    ensures NarrativePrompt(question, preview, stats, context) == PromptHead(question, preview, stats, context) + AnswerMarker
    ensures !Contains(PromptHead(question, preview, stats, context), AnswerMarker)
  {
    MarkerShape();
    FixedTextHasNoA();
    NoMarkerWithoutA(System);
    assert QuestionLabel[|QuestionLabel| - 1] == '\n' && ResultsLabel[|ResultsLabel| - 1] == '\n';
    assert StatsLabel[|StatsLabel| - 1] == '\n' && ContextLabel[|ContextLabel| - 1] == '\n';
    var x1 := System + Section(QuestionLabel, question);
    AppendSection(System, QuestionLabel, question);
    var x2 := x1 + Section(ResultsLabel, preview);
    AppendSection(x1, ResultsLabel, preview);
    var x3 := x2 + Section(StatsLabel, stats);
    AppendSection(x2, StatsLabel, stats);
    var x4 := x3 + Section(ContextLabel, context);
    AppendSection(x3, ContextLabel, context);
    NoMarkerWithoutA(ClosingBlock);
    assert ClosingBlock[0] == '\n';
    NotContainsJoined(x4, ClosingBlock, AnswerMarker);
  }

  /**
   * If the decoded text repeats the prompt and then continues, the narrative
   * is the continuation, stripped, provided no part of the prompt holds the
   * marker.
   */
  lemma EchoedPromptGivesContinuation(question: string, preview: string, stats: string, context: string,
                                      continuation: string)
    requires !Contains(question, AnswerMarker) && !Contains(preview, AnswerMarker)
    requires !Contains(stats, AnswerMarker) && !Contains(context, AnswerMarker)
    ensures ExtractAnswer(NarrativePrompt(question, preview, stats, context) + continuation) == Strip(continuation)
  {
    MarkerOnlyAtEnd(question, preview, stats, context);
    AnswerFollowsFirstMarker(PromptHead(question, preview, stats, context), continuation);
  }

  // ---------------------------------------------------------------------------
  // generate_narrative_tinyllama

  /**
   * One narrative: the prompt is generated from with the default token
   * budget, and the answer is read from the decoded text.
   */
  function Narrative(w: World, question: string, preview: string, stats: string, context: string): (s: Step<string>)
    ensures s.effects == [Generate(NarrativePrompt(question, preview, stats, context), MaxNewTokens)]
    ensures s.result.Ok? <==> w.generate(NarrativePrompt(question, preview, stats, context), MaxNewTokens).Ok?
    ensures s.result.Ok? ==>
      s.result.value == ExtractAnswer(w.generate(NarrativePrompt(question, preview, stats, context), MaxNewTokens).value)
    ensures s.result.Err? ==> s.result == w.generate(NarrativePrompt(question, preview, stats, context), MaxNewTokens)
  {
    var prompt := NarrativePrompt(question, preview, stats, context);
    match w.generate(prompt, MaxNewTokens)
    case Err(e) => Step([Generate(prompt, MaxNewTokens)], Err(e))
    case Ok(full) => Step([Generate(prompt, MaxNewTokens)], Ok(ExtractAnswer(full)))
  }

  // ---------------------------------------------------------------------------
  // _load_model

  /** The fine-tuned model: the base model with the LoRA adapter at `adapter` attached. */
  datatype Model = Model(base: string, adapter: string, instance: nat)

  /** A tokenizer: its name, its padding token if set, and its end-of-sequence token. */
  datatype Tokenizer = Tokenizer(name: string, padToken: Option<string>, eosToken: string)

  /** A tokenizer without a padding token pads with its end-of-sequence token. */
  function WithPadding(t: Tokenizer): (r: Tokenizer)
    ensures r.padToken.Some?
    ensures r.name == t.name && r.eosToken == t.eosToken
    ensures t.padToken.Some? ==> r == t
    ensures t.padToken.None? ==> r.padToken == Some(t.eosToken)
  {
    if t.padToken.None? then t.(padToken := Some(t.eosToken)) else t
  }

  /**
   * A fresh load: the base model named by `TINYLLAMA_BASE`, the adapter
   * attached, and the tokenizer of the base model with its padding fixed.
   */
  function FreshLoad(loadBase: string -> Result<Model, Error>,
                     attachAdapter: (Model, string) -> Result<Model, Error>, adapterPath: string,
                     loadTokenizer: string -> Result<Tokenizer, Error>): (r: Result<(Model, Tokenizer), Error>)
    ensures r.Ok? ==> r.value.1.padToken.Some?
    ensures r.Ok? <==> (loadBase(Config.TinyLlamaBase).Ok?
                        && attachAdapter(loadBase(Config.TinyLlamaBase).value, adapterPath).Ok?
                        && loadTokenizer(Config.TinyLlamaBase).Ok?)
    ensures r.Ok? ==> r.value == (attachAdapter(loadBase(Config.TinyLlamaBase).value, adapterPath).value,
                                  WithPadding(loadTokenizer(Config.TinyLlamaBase).value))
    // the first step that fails gives the error, in the order base, adapter, tokenizer
    ensures loadBase(Config.TinyLlamaBase).Err? ==> r == Err(loadBase(Config.TinyLlamaBase).error)
    ensures loadBase(Config.TinyLlamaBase).Ok? && attachAdapter(loadBase(Config.TinyLlamaBase).value, adapterPath).Err? ==>
      r == Err(attachAdapter(loadBase(Config.TinyLlamaBase).value, adapterPath).error)
    ensures (loadBase(Config.TinyLlamaBase).Ok? && attachAdapter(loadBase(Config.TinyLlamaBase).value, adapterPath).Ok? &&
             loadTokenizer(Config.TinyLlamaBase).Err?) ==> r == Err(loadTokenizer(Config.TinyLlamaBase).error)
  {
    match loadBase(Config.TinyLlamaBase)
    case Err(e) => Err(e)
    case Ok(base) =>
      match attachAdapter(base, adapterPath)
      case Err(e) => Err(e)
      case Ok(model) =>
        match loadTokenizer(Config.TinyLlamaBase)
        case Err(e) => Err(e)
        case Ok(tokenizer) => Ok((model, WithPadding(tokenizer)))
  }

  /** The module-level memo `_model`, `_tokenizer`. */
  class ModelCache {
    var model: Option<Model>
    var tokenizer: Option<Tokenizer>
    /**
     * How many fresh loads have been started, whether they succeeded or not:
     * a stored pair is never loaded again, while a failed load is tried again.
     */
    ghost var attempts: nat

    /** Both globals are set together, by one of the loads, and the stored tokenizer pads. */
    ghost predicate Valid()
      reads this
    {
      && (model.Some? <==> tokenizer.Some?)
      && (model.Some? ==> attempts > 0)
      && (tokenizer.Some? ==> tokenizer.value.padToken.Some?)
    }

    constructor()
      ensures Valid() && model.None? && tokenizer.None?
    {
      model := None;
      tokenizer := None;
      attempts := 0;
    }

    /** `_load_model()`: the stored pair, or a fresh load stored on success. */
    method LoadModel(loadBase: string -> Result<Model, Error>,
                     attachAdapter: (Model, string) -> Result<Model, Error>, adapterPath: string,
                     loadTokenizer: string -> Result<Tokenizer, Error>)
      returns (r: Result<(Model, Tokenizer), Error>)
      requires Valid()
      modifies this
      ensures Valid() && attempts == old(attempts) + (if old(model).None? then 1 else 0)
      ensures old(model).Some? ==>
        r == Ok((old(model).value, old(tokenizer).value)) && model == old(model) && tokenizer == old(tokenizer)
      ensures old(model).None? ==> r == FreshLoad(loadBase, attachAdapter, adapterPath, loadTokenizer)
      ensures r.Ok? ==> model == Some(r.value.0) && tokenizer == Some(r.value.1) && r.value.1.padToken.Some?
      ensures r.Err? ==> model.None? && tokenizer.None?
    {
      if model.Some? {
        return Ok((model.value, tokenizer.value));
      }
      r := FreshLoad(loadBase, attachAdapter, adapterPath, loadTokenizer);
      attempts := attempts + 1;
      if r.Ok? {
        model, tokenizer := Some(r.value.0), Some(r.value.1);
      }
    }
  }

  /** A second `_load_model` after a successful first returns the same pair and loads nothing. */
  method LoadedOnce(cache: ModelCache, loadBase: string -> Result<Model, Error>,
                    attachAdapter: (Model, string) -> Result<Model, Error>, adapterPath: string,
                    loadTokenizer: string -> Result<Tokenizer, Error>)
    returns (first: Result<(Model, Tokenizer), Error>, second: Result<(Model, Tokenizer), Error>)
    requires cache.Valid()
    modifies cache
    ensures first.Ok? ==>
      second == first && cache.attempts == old(cache.attempts) + (if old(cache.model).None? then 1 else 0)
  {
    first := cache.LoadModel(loadBase, attachAdapter, adapterPath, loadTokenizer);
    second := cache.LoadModel(loadBase, attachAdapter, adapterPath, loadTokenizer);
  }
}
