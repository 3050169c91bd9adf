/**
 * Running generated pandas code: the markdown clean-up applied to the model's
 * text, the namespace handed to `exec`, the checks made afterwards and the
 * summary statistics derived from the result table.
 */
module DataRunner {
  import opened Wrappers
  import opened Text
  import opened Tables

  // ---------------------------------------------------------------------------
  // clean_code

  /**
   * Strips the text, deletes every "```python" in any letter case, then every
   * "```", then every remaining backtick, and strips again.
   */
  function CleanCode(raw: string): (code: string)
    ensures '`' !in code
    ensures Stripped(code)
  {
    var fenced := ReplaceIgnoringCase(Strip(raw), "```python", "");
    var unfenced := Replace(fenced, "```", "");
    var bare := Replace(unfenced, "`", "");
    ReplaceCharRemovesIt(unfenced, '`');
    StripKeepsAbsent(bare, '`');
    Strip(bare)
  }

  /** Every deletion in `CleanCode` leaves a text without backticks as it is. */
  lemma DeletionsKeepBacktickFree(s: string)
    requires '`' !in s
    ensures Replace(Replace(ReplaceIgnoringCase(s, "```python", ""), "```", ""), "`", "") == s
  {
    forall k | 0 <= k < |s| ensures LowerChar(s[k]) != LowerChar("```python"[0]) {
      assert s[k] != '`';
    }
    ReplaceIgnoringCaseAbsent(s, "```python", "");
    ReplaceAbsent(s, "```", "");
    ReplaceAbsent(s, "`", "");
  }

  /** Code without backticks is only stripped. */
  lemma CleanCodeWithoutBackticks(raw: string)
    requires '`' !in raw
    ensures CleanCode(raw) == Strip(raw)
  {
    StripKeepsAbsent(raw, '`');
    DeletionsKeepBacktickFree(Strip(raw));
    StripIdempotent(raw);
  }

  /**
   * A fenced block whose tag spells "python" in any letter case, around text
   * without backticks, cleans to that text stripped: the opening fence and
   * its tag go, and so does the closing fence.
   */
  lemma CleanCodeOfFence(tag: string, x: string)
    requires SameIgnoringCase(tag, "python") && '`' !in x
    ensures CleanCode("```" + tag + x + "```") == Strip(x)
  {
    var s := "```" + tag + x + "```";
    assert Stripped(s) by { assert s[0] == '`' && s[|s| - 1] == '`'; }
    StripOfStripped(s);
    assert SameIgnoringCase(s[..9], "```python") by {
      assert s[..9] == "```" + tag;
      forall k | 3 <= k < 9 ensures LowerChar(s[k]) == LowerChar("```python"[k]) {
        assert s[k] == tag[k - 3] && "```python"[k] == "python"[k - 3];
      }
    }
    assert s[9..] == x + "```";
    forall k | 0 <= k < |x| ensures LowerChar(x[k]) != LowerChar("```python"[0]) {
      assert x[k] != '`';
    }
    ReplaceIgnoringCaseShortTail(x, "```", "```python", "");
    assert ReplaceIgnoringCase(s, "```python", "") == x + "```";
    ReplaceAfterPrefix(x, "```", "```", "");
    assert Replace("```", "```", "") == "";
    assert x + "" == x;
    ReplaceAbsent(x, "`", "");
  }

  /** Text without backticks that does not start with "python", in any case, puts no "```python" at a fence. */
  lemma NoTagAfterFence(x: string)
    requires '`' !in x && !(|x| >= 6 && SameIgnoringCase(x[..6], "python"))
    ensures var s := "```" + x + "```"; |s| >= 9 ==> !SameIgnoringCase(s[..9], "```python")
  {
    var s := "```" + x + "```";
    var p := "```python";
    if |x| >= 6 {
      // a letter of the tag that differs from "python"
      var k :| 0 <= k < 6 && LowerChar(x[..6][k]) != LowerChar("python"[k]);
      assert s[..9][k + 3] == x[..6][k] && p[k + 3] == "python"[k];
    } else if |s| >= 9 {
      // the closing fence comes where the pattern has a letter
      assert s[..9][3 + |x|] == '`' && p[3 + |x|] in "hon";
    }
  }

  /**
   * A pattern that opens with three fence characters, and does not start at
   * the opening fence, is found nowhere in a fenced text without that
   * character.
   */
  lemma FencedTextKept(c: char, x: string, p: string)
    requires |p| > 6 && p[0] == c && p[1] == c && p[2] == c
    requires forall k :: 0 <= k < |x| ==> LowerChar(x[k]) != LowerChar(c)
    requires |x| + 6 >= |p| ==> !SameIgnoringCase(([c, c, c] + x + [c, c, c])[..|p|], p)
    ensures ReplaceIgnoringCase([c, c, c] + x + [c, c, c], p, "") == [c, c, c] + x + [c, c, c]
  {
    var fence := [c, c, c];
    ReplaceIgnoringCaseShortTail(x, fence, p, "");
    // nor can it start at the second or third: a character of x stands where it has c
    var s2 := [c] + (x + fence);
    var s1 := [c] + s2;
    if |x| + 4 >= |p| {
      assert s2[..|p|][1] == x[0];
      DifferentIgnoringCase(s2[..|p|], p, 1);
    }
    ReplaceIgnoringCaseSkip(c, x + fence, p, "");
    assert ReplaceIgnoringCase(s2, p, "") == s2;
    if |s2| + 1 >= |p| {
      assert s1[..|p|][2] == x[0];
      DifferentIgnoringCase(s1[..|p|], p, 2);
    }
    ReplaceIgnoringCaseSkip(c, s2, p, "");
    assert ReplaceIgnoringCase(s1, p, "") == s1;
    assert fence + x + fence == [c] + s1;
    ReplaceIgnoringCaseSkip(c, s1, p, "");
  }

  /**
   * A fence without a "python" tag, in any case, around text without
   * backticks loses its two fences and nothing else.
   */
  lemma CleanCodeOfBareFence(x: string)
    requires '`' !in x && !(|x| >= 6 && SameIgnoringCase(x[..6], "python"))
    ensures CleanCode("```" + x + "```") == Strip(x)
  {
    var s := "```" + x + "```";
    assert Stripped(s) by { assert s[0] == '`' && s[|s| - 1] == '`'; }
    StripOfStripped(s);
    NoTagAfterFence(x);
    var p := "```python";
    assert |p| == 9 && p[0] == '`' && p[1] == '`' && p[2] == '`';
    assert s == ['`', '`', '`'] + x + ['`', '`', '`'];
    forall k | 0 <= k < |x| ensures LowerChar(x[k]) != LowerChar('`') {
      assert x[k] != '`';
    }
    FencedTextKept('`', x, p);
    // then both fences go, and nothing else does
    assert Replace(s, "```", "") == x by {
      assert s[..3] == "```" && s[3..] == x + "```";
      ReplaceAfterPrefix(x, "```", "```", "");
      assert Replace("```", "```", "") == "";
      assert x + "" == x;
    }
    ReplaceAbsent(x, "`", "");
  }

  /**
   * The block the model is asked for: "```python", a line break, the code, a
   * line break and "```" clean to the code stripped, whatever the tag's case.
   */
  lemma CleanCodeOfPythonBlock(tag: string, body: string)
    requires SameIgnoringCase(tag, "python") && '`' !in body
    ensures CleanCode("```" + tag + "\n" + body + "\n```") == Strip(body)
  {
    var x := ['\n'] + body + ['\n'];
    assert "```" + tag + "\n" + body + "\n```" == "```" + tag + x + "```";
    assert '`' !in x;
    CleanCodeOfFence(tag, x);
    StripBetweenSpaces(body, '\n');
  }

  /** A block fenced without a tag cleans to its code stripped as well. */
  lemma CleanCodeOfUntaggedBlock(body: string)
    requires '`' !in body
    ensures CleanCode("```\n" + body + "\n```") == Strip(body)
  {
    var x := ['\n'] + body + ['\n'];
    assert "```\n" + body + "\n```" == "```" + x + "```";
    assert '`' !in x;
    if |x| >= 6 {
      assert x[..6][0] == '\n' && "python"[0] == 'p';
      DifferentIgnoringCase(x[..6], "python", 0);
    }
    CleanCodeOfBareFence(x);
    StripBetweenSpaces(body, '\n');
  }

  /** Cleaning already-cleaned code changes nothing. */
  lemma CleanCodeIdempotent(raw: string)
    ensures CleanCode(CleanCode(raw)) == CleanCode(raw)
  {
    var c := CleanCode(raw);
    CleanCodeWithoutBackticks(c);
    StripOfStripped(c);
  }

  // ---------------------------------------------------------------------------
  // run_pandas_code

  /** What a name in the code's namespace is bound to: a data frame, or some other Python object. */
  datatype Obj = Frame(table: Table) | Other(repr: string)

  /** The local namespace `exec` runs the code in. */
  type Namespace = map<string, Obj>

  /** How `exec(code, {}, locals)` ends: with an exception, or with the namespace the code left behind. */
  datatype ExecOutcome = Raised(error: Error) | Finished(locals: Namespace)

  /** `summary_stats`: the row count, the column names in order, and one dtype name per column. */
  datatype SummaryStats = SummaryStats(rows: nat, columns: seq<string>, dtypes: map<string, string>)

  const MissingResultMessage: string :=
    "Generated code did not create `result_df`. Make sure the model assigns the final table to result_df."

  /** The first namespace: the data frame bound to `df` and nothing else. */
  function InitialLocals(df: Table): (ns: Namespace)
    ensures ns.Keys == {"df"} && ns["df"] == Frame(df)
  {
    map["df" := Frame(df)]
  }

  /** How running the cleaned code in the first namespace ends. */
  function ExecCleaned(exec: (string, Namespace) -> ExecOutcome, rawCode: string, df: Table): ExecOutcome {
    exec(CleanCode(rawCode), InitialLocals(df))
  }

  /**
   * The exceptions that derive from `BaseException` but not from `Exception`:
   * `except Exception` lets them pass unchanged.
   */
  const NotExceptionKinds: set<string> := {"SystemExit", "KeyboardInterrupt", "GeneratorExit", "BaseExceptionGroup"}

  /** `except Exception` catches `e`. */
  predicate CaughtAsException(e: Error) {
    e.kind !in NotExceptionKinds
  }

  function ExecErrorMessage(e: Error, cleaned: string): string {
    "Error executing generated code: " + e.message + "\n\nCleaned Code:\n" + cleaned
  }

  /** The error raised when `exec` fails names the failure and shows the code that was run. */
  lemma ExecErrorShowsCode(e: Error, cleaned: string)
    ensures Contains(ExecErrorMessage(e, cleaned), cleaned)
    ensures Contains(ExecErrorMessage(e, cleaned), e.message)
  {
    ContainsPart("Error executing generated code: " + e.message + "\n\nCleaned Code:\n", cleaned, "");
    assert ExecErrorMessage(e, cleaned) == "Error executing generated code: " + e.message + "\n\nCleaned Code:\n" + cleaned + "";
    assert ExecErrorMessage(e, cleaned) == "Error executing generated code: " + e.message + ("\n\nCleaned Code:\n" + cleaned);
    ContainsPart("Error executing generated code: ", e.message, "\n\nCleaned Code:\n" + cleaned);
  }

  /** The error pandas raises for `str(result_df[col].dtype)` when two columns share the name `col`. */
  function DuplicateColumnError(): Error {
    Error("AttributeError", "'DataFrame' object has no attribute 'dtype'")
  }

  /**
   * The dtype comprehension over the columns. Selecting a column name that
   * occurs twice gives a data frame, which has no `dtype`.
   */
  function Dtypes(t: Table, dtypeOf: (Table, string) -> string): (r: Result<map<string, string>, Error>)
    ensures r.Ok? <==> forall k :: 0 <= k < |t.columns| ==> Occurrences(t.columns, t.columns[k]) == 1
    ensures r.Err? ==> r.error == DuplicateColumnError()
    ensures r.Ok? ==> (r.value.Keys == (set c | c in t.columns)
                       && forall c :: c in r.value ==> r.value[c] == dtypeOf(t, c))
  {
    if exists k :: 0 <= k < |t.columns| && Occurrences(t.columns, t.columns[k]) > 1 then
      Err(DuplicateColumnError())
    else
      Ok(map c | c in t.columns :: dtypeOf(t, c))
  }

  function Summarize(t: Table, dtypes: map<string, string>): SummaryStats {
    SummaryStats(|t.rows|, t.columns, dtypes)
  }

  /** `stats` counts the rows of `t`, lists its columns in order and names each column's dtype once. */
  predicate Describes(stats: SummaryStats, t: Table, dtypeOf: (Table, string) -> string) {
    && stats.rows == |t.rows|
    && stats.columns == t.columns
    && stats.dtypes.Keys == (set c | c in t.columns)
    && forall c :: c in stats.dtypes ==> stats.dtypes[c] == dtypeOf(t, c)
  }

  /** The table `result_df` stands for: itself when it is a data frame, otherwise `pd.DataFrame(result_df)`. */
  function BoundTable(o: Obj, coerce: Obj -> Result<Table, Error>): Result<Table, Error> {
    match o
    case Frame(t) => Ok(t)
    case Other(_) => coerce(o)
  }

  /**
   * `run_pandas_code(df, raw_code)`. The code is cleaned and executed with
   * `exec` in a namespace holding only `df`; `exec` is the supplied oracle,
   * `coerce` is `pd.DataFrame(x)` for a result that is not a data frame, and
   * `dtypeOf` names a column's dtype.
   */
  function PandasRun(df: Table, rawCode: string,
                     exec: (string, Namespace) -> ExecOutcome,
                     coerce: Obj -> Result<Table, Error>,
                     dtypeOf: (Table, string) -> string)
    : (outcome: Result<(Table, SummaryStats), Error>)
    // the cleaned code runs, in a namespace that binds only df
    ensures var ran := ExecCleaned(exec, rawCode, df);
      // an exception is wrapped in a RuntimeError; SystemExit and its kin pass unchanged
      && (ran.Raised? && CaughtAsException(ran.error) ==>
            outcome == Err(Error("RuntimeError", ExecErrorMessage(ran.error, CleanCode(rawCode)))))
      && (ran.Raised? && !CaughtAsException(ran.error) ==> outcome == Err(ran.error))
      && (ran.Finished? && "result_df" !in ran.locals ==>
            outcome == Err(Error("RuntimeError", MissingResultMessage)))
      && (ran.Finished? && "result_df" in ran.locals && BoundTable(ran.locals["result_df"], coerce).Err? ==>
            outcome == Err(BoundTable(ran.locals["result_df"], coerce).error))
    // on success the result is the bound frame, or its coercion, and the stats describe it
    ensures outcome.Ok? ==>
      var ran := ExecCleaned(exec, rawCode, df);
      && ran.Finished? && "result_df" in ran.locals
      && BoundTable(ran.locals["result_df"], coerce) == Ok(outcome.value.0)
      && Describes(outcome.value.1, outcome.value.0, dtypeOf)
    // once the table is bound, the run succeeds exactly when its stats can be built;
    // a table, coerced or not, that lists a column name twice fails while they are built
    ensures var ran := ExecCleaned(exec, rawCode, df);
      ran.Finished? && "result_df" in ran.locals && BoundTable(ran.locals["result_df"], coerce).Ok? ==>
        var result := BoundTable(ran.locals["result_df"], coerce).value;
        && (outcome.Ok? <==> Dtypes(result, dtypeOf).Ok?)
        && (Dtypes(result, dtypeOf).Err? ==> outcome == Err(DuplicateColumnError()))
  {
    match ExecCleaned(exec, rawCode, df)
    case Raised(e) =>
      if CaughtAsException(e) then Err(Error("RuntimeError", ExecErrorMessage(e, CleanCode(rawCode))))
      else Err(e)
    case Finished(ns) =>
      if "result_df" !in ns then Err(Error("RuntimeError", MissingResultMessage))
      else match BoundTable(ns["result_df"], coerce)
        case Err(e) => Err(e)
        case Ok(result) =>
          match Dtypes(result, dtypeOf)
          case Err(e) => Err(e)
          case Ok(dtypes) => Ok((result, Summarize(result, dtypes)))
  }

  /**
   * `run_pandas_code(df, raw_code)`, step by step: `local_vars` starts with
   * `df` alone, `exec` leaves its namespace in it, and it is then read.
   */
  method RunPandasCode(df: Table, rawCode: string,
                       exec: (string, Namespace) -> ExecOutcome,
                       coerce: Obj -> Result<Table, Error>,
                       dtypeOf: (Table, string) -> string)
    returns (outcome: Result<(Table, SummaryStats), Error>)
    ensures outcome == PandasRun(df, rawCode, exec, coerce, dtypeOf)
  {
    var cleaned := CleanCode(rawCode);
    var localVars := InitialLocals(df);
    var ran := exec(cleaned, localVars);
    assert ran == ExecCleaned(exec, rawCode, df);
    if ran.Raised? {
      if !CaughtAsException(ran.error) {
        return Err(ran.error);
      }
      return Err(Error("RuntimeError", ExecErrorMessage(ran.error, cleaned)));
    }
    localVars := ran.locals;
    if "result_df" !in localVars {
      return Err(Error("RuntimeError", MissingResultMessage));
    }
    var bound := BoundTable(localVars["result_df"], coerce);
    if bound.Err? {
      return Err(bound.error);
    }
    var result := bound.value;
    var dtypes := Dtypes(result, dtypeOf);
    if dtypes.Err? {
      return Err(dtypes.error);
    }
    return Ok((result, Summarize(result, dtypes.value)));
  }
}
