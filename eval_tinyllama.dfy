/**
 * The evaluation script of the fine-tuned narrator: the first few instruction
 * records are read, each instruction is completed with "Answer:", and the
 * prediction is read from the decoded text after the marker.
 */
module EvalTinyLlama {
  import opened Wrappers
  import opened Text
  import opened Tables
  import TinyLlamaNarrative
  import TrainFormatting

  const MaxExamples: nat := 5
  const EvalMaxNewTokens: nat := 120

  /** One parsed line of the instruction file, by key. */
  type Example = map<string, string>

  /**
   * Applying `f` to the items one after another, stopping at the first item
   * it fails on, as an exception raised inside a `for` loop would: parsing the
   * lines read (`json.loads` raising), and evaluating the examples.
   */
  function AllOk<X, Y>(xs: seq<X>, f: X -> Result<Y, Error>): (r: Result<seq<Y>, Error>)
    ensures r.Ok? <==> forall k :: 0 <= k < |xs| ==> f(xs[k]).Ok?
    ensures r.Ok? ==> |r.value| == |xs| && forall k :: 0 <= k < |xs| ==> f(xs[k]) == Ok(r.value[k])
    ensures r.Err? ==> exists k :: 0 <= k < |xs| && f(xs[k]) == Err(r.error)
                                   && forall j :: 0 <= j < k ==> f(xs[j]).Ok?
  {
    if xs == [] then Ok([])
    else
      var init := xs[..|xs| - 1];
      match AllOk(init, f)
      case Err(e) =>
        assert forall k :: 0 <= k < |init| ==> init[k] == xs[k];
        Err(e)
      case Ok(ys) =>
        assert forall k :: 0 <= k < |init| ==> init[k] == xs[k];
        match f(xs[|xs| - 1])
        case Err(e) => Err(e)
        case Ok(y) => Ok(ys + [y])
  }

  /** A failure among the first items stays the failure however many items follow. */
  lemma {:induction false} FailureStays<X, Y>(xs: seq<X>, i: nat, j: nat, f: X -> Result<Y, Error>)
    requires i <= j <= |xs| && AllOk(xs[..i], f).Err?
    ensures AllOk(xs[..j], f) == AllOk(xs[..i], f)
    decreases j - i
  {
    if i < j {
      FailureStays(xs, i, j - 1, f);
      var prefix := xs[..j];
      assert prefix[..|prefix| - 1] == xs[..j - 1];
      assert AllOk(prefix[..|prefix| - 1], f).Err?;
    }
  }

  /** One more item that gives its value extends the values of the items before it. */
  lemma EachOkExtended<X, Y>(xs: seq<X>, f: X -> Result<Y, Error>, ys: seq<Y>, y: Y)
    requires |ys| < |xs| && (forall k :: 0 <= k < |ys| ==> f(xs[k]) == Ok(ys[k])) && f(xs[|ys|]) == Ok(y)
    ensures forall k :: 0 <= k < |ys| + 1 ==> f(xs[k]) == Ok((ys + [y])[k])
  {
  }

  /** When every item gives its value, the fold gives all of them. */
  lemma AllOkOfEach<X, Y>(xs: seq<X>, f: X -> Result<Y, Error>, ys: seq<Y>)
    requires |ys| == |xs| && forall k :: 0 <= k < |xs| ==> f(xs[k]) == Ok(ys[k])
    ensures AllOk(xs, f) == Ok(ys)
  {
    var r := AllOk(xs, f);
    assert r.Ok?;
    assert forall k :: 0 <= k < |xs| ==> r.value[k] == ys[k] by {
      forall k | 0 <= k < |xs| ensures r.value[k] == ys[k] {
        assert f(xs[k]) == Ok(r.value[k]);
      }
    }
    assert r.value == ys;
  }

  /** The first item that fails is the fold's failure. */
  lemma AllOkStopsAt<X, Y>(xs: seq<X>, f: X -> Result<Y, Error>, i: nat)
    requires i < |xs| && (forall k :: 0 <= k < i ==> f(xs[k]).Ok?) && f(xs[i]).Err?
    ensures AllOk(xs, f) == Err(f(xs[i]).error)
  {
    var init := xs[..i + 1][..i];
    assert init == xs[..i];
    assert forall k :: 0 <= k < |init| ==> init[k] == xs[k];
    assert AllOk(init, f).Ok?;
    assert xs[..i + 1][i] == xs[i];
    assert AllOk(xs[..i + 1], f) == Err(f(xs[i]).error);
    FailureStays(xs, i + 1, |xs|, f);
    assert xs[..|xs|] == xs;
  }

  /** The read loop: the lines in file order, up to `MAX_EXAMPLES` of them. */
  method ReadExamples(lines: seq<string>, parse: string -> Result<Example, Error>)
    returns (r: Result<seq<Example>, Error>)
    ensures r == AllOk(lines[..Min(MaxExamples, |lines|)], parse)
  {
    var examples: seq<Example> := [];
    var i := 0;
    while i < |lines|
      invariant i <= |lines| && i <= MaxExamples
      invariant AllOk(lines[..i], parse) == Ok(examples)
    {
      if i >= MaxExamples {
        break;
      }
      var parsed := parse(lines[i]);
      assert lines[..i + 1][..i] == lines[..i];
      if parsed.Err? {
        FailureStays(lines, i + 1, Min(MaxExamples, |lines|), parse);
        return Err(parsed.error);
      }
      examples := examples + [parsed.value];
      i := i + 1;
    }
    assert i == Min(MaxExamples, |lines|);
    return Ok(examples);
  }

  /** The prompt for an instruction. */
  function EvalPrompt(instruction: string): string {
    instruction + "\n\n" + TinyLlamaNarrative.AnswerMarker
  }

  /** `text.split("Answer:", 1)[-1].strip()`. */
  function Prediction(text: string): string {
    var parts := SplitOnce(text, TinyLlamaNarrative.AnswerMarker);
    Strip(parts[|parts| - 1])
  }

  /** The evaluation reads predictions exactly as the narrator reads its answers, on every text. */
  lemma PredictionIsNarratorAnswer(text: string)
    ensures Prediction(text) == TinyLlamaNarrative.ExtractAnswer(text)
  {
    if Contains(text, TinyLlamaNarrative.AnswerMarker) {
      assert |SplitOnce(text, TinyLlamaNarrative.AnswerMarker)| == 2;
    }
  }

  /** For a stripped instruction, the prompt is how its training text begins. */
  lemma PromptStartsTrainingText(instruction: string, output: string)
    requires Stripped(instruction)
    ensures IsPrefix(EvalPrompt(instruction), TrainFormatting.TrainingText(instruction, output))
  {
    StripOfStripped(instruction);
    MarkerThenSpace(instruction, Strip(output));
  }

  /** The training text's "\n\nAnswer: " is the prompt's "\n\nAnswer:" and one space. */
  lemma MarkerThenSpace(x: string, o: string)
    ensures IsPrefix(EvalPrompt(x), x + "\n\nAnswer: " + o)
  {
    var p := EvalPrompt(x);
    assert x + "\n\nAnswer: " + o == p + ([' '] + o);
    assert (p + ([' '] + o))[..|p|] == p;
  }

  /** If the model repeats the prompt and continues, the prediction is the continuation, stripped. */
  lemma EchoedPromptPredicts(instruction: string, continuation: string)
    requires !Contains(instruction, TinyLlamaNarrative.AnswerMarker)
    ensures Prediction(EvalPrompt(instruction) + continuation) == Strip(continuation)
  {
    PredictionIsNarratorAnswer(EvalPrompt(instruction) + continuation);
    TrainFormatting.MarkerAfterBlankLine(instruction, continuation);
  }

  /** What the script shows for one example. */
  datatype Evaluation = Evaluation(instruction: string, target: string, prediction: string)

  /** One example evaluated: `generate` tokenizes the prompt, samples and decodes. */
  function Evaluate(example: Example, generate: (string, nat) -> Result<string, Error>): (r: Result<Evaluation, Error>)
    ensures "instruction" !in example ==> r == Err(KeyError("instruction"))
    ensures "instruction" in example && "output" !in example ==> r == Err(KeyError("output"))
    // with both keys present, the generation decides the result
    ensures "instruction" in example && "output" in example ==>
      var generated := generate(EvalPrompt(example["instruction"]), EvalMaxNewTokens);
      && (r.Ok? <==> generated.Ok?)
      && (generated.Err? ==> r == Err(generated.error))
    ensures r.Ok? ==>
      && "instruction" in example && "output" in example
      && generate(EvalPrompt(example["instruction"]), EvalMaxNewTokens).Ok?
      && r.value == Evaluation(example["instruction"], example["output"],
                               Prediction(generate(EvalPrompt(example["instruction"]), EvalMaxNewTokens).value))
  {
    if "instruction" !in example then Err(KeyError("instruction"))
    else if "output" !in example then Err(KeyError("output"))
    else
      var instruction := example["instruction"];
      match generate(EvalPrompt(instruction), EvalMaxNewTokens)
      case Err(e) => Err(e)
      case Ok(text) => Ok(Evaluation(instruction, example["output"], Prediction(text)))
  }

  /**
   * The second loop: every example read is evaluated and shown, in order,
   * until one fails; the evaluations shown before the failure stay shown.
   */
  method EvaluateAll(examples: seq<Example>, generate: (string, nat) -> Result<string, Error>)
    returns (shown: seq<Evaluation>, failure: Option<Error>)
    ensures |shown| <= |examples|
    ensures forall k :: 0 <= k < |shown| ==> Evaluate(examples[k], generate) == Ok(shown[k])
    ensures failure.None? ==> |shown| == |examples|
    ensures failure.Some? ==> |shown| < |examples| && Evaluate(examples[|shown|], generate) == Err(failure.value)
    // the whole loop fails exactly as the fold over the examples does
    ensures failure.None? ==> AllOk(examples, (e: Example) => Evaluate(e, generate)) == Ok(shown)
    ensures failure.Some? ==> AllOk(examples, (e: Example) => Evaluate(e, generate)) == Err(failure.value)
  {
    shown := [];
    var i := 0;
    while i < |examples|
      invariant i <= |examples| && |shown| == i
      invariant forall k :: 0 <= k < i ==> Evaluate(examples[k], generate) == Ok(shown[k])
    {
      var one := Evaluate(examples[i], generate);
      if one.Err? {
        AllOkStopsAt(examples, (e: Example) => Evaluate(e, generate), i);
        return shown, Some(one.error);
      }
      EachOkExtended(examples, (e: Example) => Evaluate(e, generate), shown, one.value);
      shown := shown + [one.value];
      i := i + 1;
    }
    AllOkOfEach(examples, (e: Example) => Evaluate(e, generate), shown);
    return shown, None;
  }
}
