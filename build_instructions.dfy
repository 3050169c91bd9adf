/**
 * The instruction records TinyLlama is fine-tuned on: one record per
 * question-and-answer item, whose instruction embeds the question between a
 * fixed system text and a fixed request, and whose output is the answer.
 */
module InstructionRecords {
  import opened Wrappers
  import opened Text
  import TinyLlamaNarrative

  /** `SYSTEM_PROMPT`, in pieces short enough to reason about one at a time. */
  const Prompt1: string := "You are a senior supply chain "
  const Prompt2: string := "analytics assistant. Given a "
  const Prompt3: string := "business question and context, you "
  const Prompt4: string := "explain the key insights clearly, in "
  const Prompt5: string := "3\U{2013}6 sentences, focusing on "
  const Prompt6: string := "deliveries, delays, customer "
  const Prompt7: string := "segments, and profitability."
  const SystemPrompt: string := Prompt1 + Prompt2 + Prompt3 + Prompt4 + Prompt5 + Prompt6 + Prompt7

  /** The request that ends every instruction. */
  const Request1: string := "Write a concise explanation of what "
  const Request2: string := "the data likely shows, highlighting "
  const Request3: string := "the most important differences and "
  const Request4: string := "what they imply."
  const Request: string := Request1 + Request2 + Request3 + Request4

  /** The text before the question, and the text after it. */
  const Opening: string := SystemPrompt + "\n\n" + "Question: "
  const Closing: string := "\n\n" + Request

  /**
   * The instruction for a question, the full prompt TinyLlama sees in
   * training: it opens with the system text and "Question: " and the
   * question, and closes with the fixed request.
   */
  function Instruction(question: string): (r: string)
    ensures IsPrefix(Opening + question, r)
    ensures |r| >= |Closing| && r[|r| - |Closing|..] == Closing
  {
    Framed(Opening, question, Closing);
    Opening + question + Closing
  }

  lemma Framed(a: string, q: string, c: string)
    ensures IsPrefix(a + q, a + q + c)
    ensures (a + q + c)[|a + q + c| - |c|..] == c
  {
  }

  /** One line of the output file: the keys "instruction" and "output". */
  datatype InstructionRecord = InstructionRecord(instruction: string, output: string)

  /** One QA item, as read from the JSON list: its string fields by key. */
  type Item = map<string, string>

  /** The record for one item; `item["question"]` is read before `item["answer"]`. */
  function RecordFor(item: Item): (r: Result<InstructionRecord, Error>)
    ensures "question" !in item ==> r == Err(KeyError("question"))
    ensures "question" in item && "answer" !in item ==> r == Err(KeyError("answer"))
    ensures r.Ok? <==> "question" in item && "answer" in item
    ensures r.Ok? ==> r.value.instruction == Instruction(item["question"]) && r.value.output == item["answer"]
  {
    if "question" !in item then Err(KeyError("question"))
    else if "answer" !in item then Err(KeyError("answer"))
    else Ok(InstructionRecord(Instruction(item["question"]), item["answer"]))
  }

  /**
   * The loop of `main`: one record written per item, in input order. An item
   * without a question or an answer raises, leaving the records already
   * written in the file.
   */
  method BuildInstructions(qaData: seq<Item>) returns (written: seq<InstructionRecord>, failure: Option<Error>)
    ensures |written| <= |qaData|
    ensures forall k :: 0 <= k < |written| ==> RecordFor(qaData[k]) == Ok(written[k])
    ensures failure.None? ==> |written| == |qaData|
    ensures failure.Some? ==> |written| < |qaData| && RecordFor(qaData[|written|]) == Err(failure.value)
  {
    written := [];
    var i := 0;
    while i < |qaData|
      invariant i <= |qaData| && |written| == i
      invariant forall k :: 0 <= k < i ==> RecordFor(qaData[k]) == Ok(written[k])
    {
      var record := RecordFor(qaData[i]);
      if record.Err? {
        return written, Some(record.error);
      }
      written := written + [record.value];
      i := i + 1;
    }
    return written, None;
  }

  // ---------------------------------------------------------------------------
  // No "Answer:" before the answer

  /** Proof helpers for FixedTextHasNoA: one literal piece each, so that every check stays small. */
  lemma NoA1() ensures 'A' !in Prompt1 && 'A' !in Prompt2 {}
  lemma NoA3() ensures 'A' !in Prompt3 {}
  lemma NoA4() ensures 'A' !in Prompt4 {}
  lemma NoA5() ensures 'A' !in Prompt5 && 'A' !in Prompt6 {}
  lemma NoA7() ensures 'A' !in Prompt7 {}
  lemma NoARequest1() ensures 'A' !in Request1 {}
  lemma NoARequest2() ensures 'A' !in Request2 {}
  lemma NoARequest3() ensures 'A' !in Request3 && 'A' !in Request4 {}

  /** The fixed text around the question has no capital A. */
  lemma FixedTextHasNoA()
    ensures 'A' !in SystemPrompt && 'A' !in Opening && 'A' !in Closing
  {
    NoA1(); NoA3(); NoA4(); NoA5(); NoA7();
    NoARequest1(); NoARequest2(); NoARequest3();
  }

  /** `SYSTEM_PROMPT` does not contain "Answer:". */
  lemma SystemPromptHasNoMarker()
    ensures !Contains(SystemPrompt, TinyLlamaNarrative.AnswerMarker)
  {
    FixedTextHasNoA();
    TinyLlamaNarrative.NoMarkerWithoutA(SystemPrompt);
  }

  /** An instruction holds "Answer:" only if its question does. */
  lemma InstructionHasNoMarker(question: string)
    requires !Contains(question, TinyLlamaNarrative.AnswerMarker)
    ensures !Contains(Instruction(question), TinyLlamaNarrative.AnswerMarker)
  {
    var m := TinyLlamaNarrative.AnswerMarker;
    TinyLlamaNarrative.MarkerShape();
    FixedTextHasNoA();
    NotContainsAfterUnstartable(Opening, question, m);
    TinyLlamaNarrative.NoMarkerWithoutA(Closing);
    assert Closing[0] == '\n';
    NotContainsJoined(Opening + question, Closing, m);
  }

  /** An instruction starts with "You" and ends with a full stop, so stripping leaves it as it is. */
  lemma InstructionStripped(question: string)
    ensures Stripped(Instruction(question))
    ensures Strip(Instruction(question)) == Instruction(question)
  {
    var r := Instruction(question);
    assert Prompt1[0] == 'Y';
    assert SystemPrompt[0] == 'Y';
    assert r[0] == Opening[0] == SystemPrompt[0];
    assert Request4[|Request4| - 1] == '.';
    assert Request[|Request| - 1] == '.';
    assert r[|r| - 1] == Closing[|Closing| - 1] == Request[|Request| - 1];
    StripOfStripped(r);
  }
}
