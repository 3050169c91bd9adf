/**
 * The training text of the LoRA fine-tuning: the stripped instruction, a
 * blank line, "Answer: " and the stripped output. Together with the
 * instruction records and the narrator's extraction it closes the "Answer:"
 * protocol: what is trained after the marker is what is read back after it.
 */
module TrainFormatting {
  import opened Wrappers
  import opened Text
  import TinyLlamaNarrative
  import InstructionRecords

  /** One example of the training set, by key. */
  type Example = map<string, string>

  /** The text one example is trained on. */
  function TrainingText(instruction: string, output: string): string {
    Strip(instruction) + "\n\nAnswer: " + Strip(output)
  }

  /**
   * `formatting_func(example)`: a dictionary with the single key "text"; a
   * missing "instruction" or "output" raises.
   */
  function FormattingFunc(example: Example): (r: Result<map<string, string>, Error>)
    ensures "instruction" !in example ==> r == Err(KeyError("instruction"))
    ensures "instruction" in example && "output" !in example ==> r == Err(KeyError("output"))
    ensures r.Ok? <==> "instruction" in example && "output" in example
    ensures r.Ok? ==> r.value.Keys == {"text"}
                      && r.value["text"] == TrainingText(example["instruction"], example["output"])
  {
    if "instruction" !in example then Err(KeyError("instruction"))
    else if "output" !in example then Err(KeyError("output"))
    else Ok(map["text" := TrainingText(example["instruction"], example["output"])])
  }

  /** Whitespace around the instruction or the output does not reach the text. */
  lemma SurroundingSpaceIgnored(instruction: string, output: string)
    ensures TrainingText(Strip(instruction), Strip(output)) == TrainingText(instruction, output)
  {
    StripIdempotent(instruction);
    StripIdempotent(output);
  }

  /** After a text without the marker and a blank line, the marker starts the answer. */
  lemma MarkerAfterBlankLine(x: string, after: string)
    requires !Contains(x, TinyLlamaNarrative.AnswerMarker)
    ensures TinyLlamaNarrative.ExtractAnswer(x + "\n\n" + TinyLlamaNarrative.AnswerMarker + after) == Strip(after)
  {
    var m := TinyLlamaNarrative.AnswerMarker;
    TinyLlamaNarrative.MarkerShape();
    TinyLlamaNarrative.NoMarkerWithoutA("\n\n");
    NotContainsJoined(x, "\n\n", m);
    TinyLlamaNarrative.AnswerFollowsFirstMarker(x + "\n\n", after);
  }

  /**
   * The round trip: if the stripped instruction holds no "Answer:", the
   * narrator's extraction applied to the training text gives back the
   * stripped output.
   */
  lemma ExtractionRecoversOutput(instruction: string, output: string)
    requires !Contains(Strip(instruction), TinyLlamaNarrative.AnswerMarker)
    ensures TinyLlamaNarrative.ExtractAnswer(TrainingText(instruction, output)) == Strip(output)
  {
    var x, o := Strip(instruction), Strip(output);
    assert TrainingText(instruction, output) == x + "\n\n" + TinyLlamaNarrative.AnswerMarker + ([' '] + o);
    MarkerAfterBlankLine(x, [' '] + o);
    StripSpaceThenStripped(o);
  }

  /**
   * Every record built from a question without "Answer:" trains an extraction
   * that gives back its answer, stripped.
   */
  lemma RecordRoundTrip(item: InstructionRecords.Item)
    requires InstructionRecords.RecordFor(item).Ok?
    requires !Contains(item["question"], TinyLlamaNarrative.AnswerMarker)
    ensures var record := InstructionRecords.RecordFor(item).value;
      && FormattingFunc(map["instruction" := record.instruction, "output" := record.output]).Ok?
      && TinyLlamaNarrative.ExtractAnswer(TrainingText(record.instruction, record.output)) == Strip(item["answer"])
  {
    var q := item["question"];
    InstructionRecords.InstructionStripped(q);
    InstructionRecords.InstructionHasNoMarker(q);
    ExtractionRecoversOutput(InstructionRecords.Instruction(q), item["answer"]);
  }
}
