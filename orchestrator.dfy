/**
 * `answer_question`: the four stages of the pipeline run one after another,
 * each on the previous one's result, and the first failure ends the call.
 */
module Orchestrator {
  import opened Wrappers
  import opened Text
  import opened Tables
  import opened Services
  import opened DataRunner
  import CodeGenerator
  import InsightGenerator

  /** The record `answer_question` returns, with its four keys. */
  datatype Answer = Answer(code: string, resultDf: Table, summaryStats: SummaryStats, narrative: string)

  /** The request `run_pandas_code` makes: the cleaned code, run once. */
  function RunEffect(code: string): Effect {
    Exec(CleanCode(code))
  }

  /**
   * `answer_question(question)`: load the processed data set, generate code
   * for the question, run it on the data set, and narrate its result. No
   * stage catches another's failure.
   */
  function AnswerQuestion(w: World, question: string): (s: Step<Answer>)
    ensures |s.effects| > 0 && s.effects[0] == LoadDataset
    ensures w.loadDataset().Err? ==> s == Step([LoadDataset], Err(w.loadDataset().error))
    ensures w.loadDataset().Ok? && CodeGenerator.GeneratePandasCode(w, question).result.Err? ==>
      var gen := CodeGenerator.GeneratePandasCode(w, question);
      s == Step([LoadDataset] + gen.effects, Err(gen.result.error))
    ensures w.loadDataset().Ok? && CodeGenerator.GeneratePandasCode(w, question).result.Ok? ==>
      var gen := CodeGenerator.GeneratePandasCode(w, question);
      var run := PandasRun(w.loadDataset().value, gen.result.value, w.exec, w.coerce, w.dtypeOf);
      run.Err? ==> s == Step([LoadDataset] + gen.effects + [RunEffect(gen.result.value)], Err(run.error))
    // every stage before narration succeeded: the narration decides the result
    ensures w.loadDataset().Ok? && CodeGenerator.GeneratePandasCode(w, question).result.Ok? ==>
      var gen := CodeGenerator.GeneratePandasCode(w, question);
      var run := PandasRun(w.loadDataset().value, gen.result.value, w.exec, w.coerce, w.dtypeOf);
      run.Ok? ==>
        var ins := InsightGenerator.GenerateInsights(w, question, run.value.0, run.value.1);
        && s.effects == [LoadDataset] + gen.effects + [RunEffect(gen.result.value)] + ins.effects
        && s.result == (if ins.result.Ok? then Ok(Answer(gen.result.value, run.value.0, run.value.1, ins.result.value))
                        else Err(ins.result.error))
    ensures s.result.Ok? ==>
      var gen := CodeGenerator.GeneratePandasCode(w, question);
      var answer := s.result.value;
      && w.loadDataset().Ok? && gen.result == Ok(answer.code)
      && PandasRun(w.loadDataset().value, answer.code, w.exec, w.coerce, w.dtypeOf)
           == Ok((answer.resultDf, answer.summaryStats))
      && var ins := InsightGenerator.GenerateInsights(w, question, answer.resultDf, answer.summaryStats);
         && ins.result == Ok(answer.narrative)
         && s.effects == [LoadDataset] + gen.effects + [RunEffect(answer.code)] + ins.effects
  {
    match w.loadDataset()
    case Err(e) => Step([LoadDataset], Err(e))
    case Ok(df) =>
      var gen := CodeGenerator.GeneratePandasCode(w, question);
      var generated := [LoadDataset] + gen.effects;
      match gen.result
      case Err(e) => Step(generated, Err(e))
      case Ok(code) =>
        var ran := generated + [RunEffect(code)];
        match PandasRun(df, code, w.exec, w.coerce, w.dtypeOf)
        case Err(e) => Step(ran, Err(e))
        case Ok(run) =>
          var ins := InsightGenerator.GenerateInsights(w, question, run.0, run.1);
          match ins.result
          case Err(e) => Step(ran + ins.effects, Err(e))
          case Ok(narrative) => Step(ran + ins.effects, Ok(Answer(code, run.0, run.1, narrative)))
  }

  /** A failure in narration is the call's failure, after every earlier stage has run. */
  lemma InsightFailureStops(w: World, question: string)
    requires w.loadDataset().Ok? && CodeGenerator.GeneratePandasCode(w, question).result.Ok?
    requires PandasRun(w.loadDataset().value, CodeGenerator.GeneratePandasCode(w, question).result.value,
                       w.exec, w.coerce, w.dtypeOf).Ok?
    ensures var gen := CodeGenerator.GeneratePandasCode(w, question);
      var run := PandasRun(w.loadDataset().value, gen.result.value, w.exec, w.coerce, w.dtypeOf).value;
      var ins := InsightGenerator.GenerateInsights(w, question, run.0, run.1);
      && AnswerQuestion(w, question).effects == [LoadDataset] + gen.effects + [RunEffect(gen.result.value)] + ins.effects
      && (ins.result.Err? ==> AnswerQuestion(w, question).result == Err(ins.result.error))
  {
  }

  /** Requests that code generation and narration may make: retrieval and the two generators. */
  predicate Consults(effects: seq<Effect>) {
    forall i :: 0 <= i < |effects| ==> effects[i].Retrieve? || effects[i].Chat? || effects[i].Generate?
  }

  lemma CodeGenerationConsults(w: World, question: string)
    ensures Consults(CodeGenerator.GeneratePandasCode(w, question).effects)
  {
    var s := CodeGenerator.GeneratePandasCode(w, question);
    if w.retrieve(question, CodeGenerator.CodeTopK).Ok? {
      assert |s.effects| == 2 && s.effects[1].Chat?;
    }
  }

  lemma InsightsConsult(w: World, question: string, t: Table, stats: SummaryStats)
    ensures Consults(InsightGenerator.GenerateInsights(w, question, t, stats).effects)
  {
    var s := InsightGenerator.GenerateInsights(w, question, t, stats);
    if w.retrieve(question, InsightGenerator.InsightTopK).Ok? {
      assert |s.effects| == 2 && (s.effects[1].Chat? || s.effects[1].Generate?);
    }
  }

  /** One load, at the start, and at most one run of code. */
  predicate LoadsOnceRunsOnce(effects: seq<Effect>) {
    && |effects| > 0 && effects[0] == LoadDataset
    && (forall i :: 0 < i < |effects| ==> !effects[i].LoadDataset?)
    && (forall i, j :: 0 <= i < j < |effects| && effects[i].Exec? ==> !effects[j].Exec?)
  }

  /** The three ways the record of requests can end all load once and run once. */
  lemma StagesOnce(gen: seq<Effect>, code: string, ins: seq<Effect>)
    requires Consults(gen) && Consults(ins)
    ensures LoadsOnceRunsOnce([LoadDataset] + gen)
    ensures LoadsOnceRunsOnce([LoadDataset] + gen + [RunEffect(code)])
    ensures LoadsOnceRunsOnce([LoadDataset] + gen + [RunEffect(code)] + ins)
  {
    var front := [LoadDataset] + gen + [RunEffect(code)];
    var all := front + ins;
    assert forall i :: 0 < i < |front| - 1 ==> front[i] == gen[i - 1];
    assert forall i :: |front| <= i < |all| ==> all[i] == ins[i - |front|];
    assert forall i :: 0 <= i < |front| ==> all[i] == front[i];
  }

  /** The data set is loaded once per call, at its start, and the code is run at most once. */
  lemma EachStageOnce(w: World, question: string)
    ensures LoadsOnceRunsOnce(AnswerQuestion(w, question).effects)
  {
    var s := AnswerQuestion(w, question);
    if w.loadDataset().Err? {
      assert s.effects == [LoadDataset];
      return;
    }
    var gen := CodeGenerator.GeneratePandasCode(w, question);
    CodeGenerationConsults(w, question);
    if gen.result.Err? {
      assert s.effects == [LoadDataset] + gen.effects;
      StagesOnce(gen.effects, "", []);
      return;
    }
    var run := PandasRun(w.loadDataset().value, gen.result.value, w.exec, w.coerce, w.dtypeOf);
    if run.Err? {
      assert s.effects == [LoadDataset] + gen.effects + [RunEffect(gen.result.value)];
      StagesOnce(gen.effects, gen.result.value, []);
      return;
    }
    var ins := InsightGenerator.GenerateInsights(w, question, run.value.0, run.value.1);
    InsightsConsult(w, question, run.value.0, run.value.1);
    InsightFailureStops(w, question);
    StagesOnce(gen.effects, gen.result.value, ins.effects);
  }

  /**
   * Code with a backtick is not what the cleaner makes of it. A direct
   * consequence of CleanCode's contract, stated for the request that is run;
   * with RecordKeepsRawCode it shows the record and the run can differ.
   */
  lemma CleaningChangesBackticks(code: string)
    requires '`' in code
    ensures RunEffect(code).code != code
  {
  }

  /**
   * The record's code is the generator's output as it came back, not the
   * cleaned text that was run: the two differ whenever the output holds a
   * backtick.
   */
  lemma RecordKeepsRawCode(w: World, question: string)
    requires AnswerQuestion(w, question).result.Ok?
    ensures var answer := AnswerQuestion(w, question).result.value;
      && CodeGenerator.GeneratePandasCode(w, question).result == Ok(answer.code)
      && RunEffect(answer.code) in AnswerQuestion(w, question).effects
  {
    var s := AnswerQuestion(w, question);
    var gen := CodeGenerator.GeneratePandasCode(w, question);
    var ins := InsightGenerator.GenerateInsights(w, question, s.result.value.resultDf, s.result.value.summaryStats);
    RunRecorded(s, gen.effects, ins.effects);
  }

  /** Proof helper for RecordKeepsRawCode: the run sits right after the generation's requests. */
  lemma RunRecorded(s: Step<Answer>, gen: seq<Effect>, ins: seq<Effect>)
    requires s.result.Ok?
    requires s.effects == [LoadDataset] + gen + [RunEffect(s.result.value.code)] + ins
    ensures RunEffect(s.result.value.code) in s.effects
  {
    assert s.effects[|gen| + 1] == RunEffect(s.result.value.code);
  }
}
