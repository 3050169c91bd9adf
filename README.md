# InsightWeaver supply-chain question answering, modelled in Dafny

InsightWeaver answers business questions about the DataCo supply-chain
order data set. A question flows through four stages:

1. The processed data set is loaded.
2. The chat model writes pandas code. The prompt holds documents retrieved
   from a markdown knowledge base and guidance picked from keywords in the
   question.
3. The code is cleaned of markdown and executed against the data set. It
   yields a result table and summary statistics.
4. A narrator turns the result into prose. The narrator is the chat model,
   or a local TinyLlama model fine-tuned with LoRA, selected by the
   `USE_TINYLLAMA_LOCAL` setting.

Around this pipeline are the offline steps:
- cleaning the raw CSV into the processed table;
- building the Chroma knowledge-base store;
- generating a synthetic question-and-answer set;
- turning that set into instruction records, formatting them for training,
  and evaluating the fine-tuned narrator.

The project models the deterministic logic of all of these and proves what
that logic promises. Every call into OpenAI, Chroma, SentenceTransformer,
torch/transformers/PEFT, pandas parsing, Python's `exec` and the filesystem
is a function the caller supplies. For the question-answering path these
functions are gathered in `Services.World`. Each stage returns the requests
it made to that world, in order, together with its result. This makes
ordering and "no later stage runs" statements about values.

Modules, one per source file, plus shared helpers:

| module | file | models |
|---|---|---|
| `Wrappers` | wrappers.dfy | `Option`, `Result` and the Python exception as `Error` |
| `Text` | text.dfy | `str.strip`, `str.split(sep, 1)`, `replace`, `lower`, `"\n\n".join`, `textwrap.dedent`, `str(i)` |
| `Tables` | tables.dfy | data frames as columns over rows of optional cells, `head`, first column index |
| `Config` | config.py | environment lookups with defaults, the TinyLlama switch, paths, `sys.path` insertion |
| `Services` | (shared) | the outside world, the request record, the first chat choice, the context join |
| `DataRunner` | pipeline/data_runner.py | `clean_code`, `run_pandas_code` |
| `CodeGenerator` | pipeline/code_generator.py | `build_prompt`, `generate_pandas_code` |
| `InsightGenerator` | pipeline/insight_generator.py | `build_insight_prompt`, `generate_insights` |
| `Orchestrator` | pipeline/orchestrator.py | `answer_question` |
| `TinyLlamaNarrative` | finetuning/tinyllama_narrative.py | `_load_model`, the prompt, the "Answer:" extraction |
| `DataLoader` | pipeline/data_loader.py | `rename_columns`, `clean_data` |
| `Retriever` | rag/retriever.py | the lazy model and collection caches, `retrieve_context` |
| `KnowledgeBase` | rag/build_kb.py | `load_kb_texts`, `build_chroma_store` |
| `SyntheticQa` | synthetic/generate_qa.py | `generate_question`, `generate_answer`, `generate_dataset` |
| `InstructionRecords` | synthetic/build_tinyllama_instructions.py | the record loop of `main` |
| `TrainFormatting` | finetuning/train_tinyllama_lora.py | `formatting_func` |
| `EvalTinyLlama` | evaluation/eval_tinyllama.py | the read loop, prompt and prediction of `main` |

The central cross-file result is the "Answer:" protocol. It is proved in
`SyntheticQa.GeneratedExampleRoundTrip` and in
`TrainFormatting.ExtractionRecoversOutput`:
- a generated example becomes an instruction record;
- the record is formatted into a training text;
- the narrator's extraction, applied to that text, gives back the example's
  answer exactly.

The evaluation script's prediction is proved to agree with the narrator's
extraction on every text.

## Model

| member | source | states |
|---|---|---|
| `Config.GetEnv` | config.py:52-53 | the value is the environment's when the variable is set and the default otherwise |
| `Config.Defaults` | config.py:52-53 | an example of `GetEnv`: with the variables unset, the API key is "" and the model name "gpt-4o" |
| `Config.UseTinyLlamaLocal` | config.py:58 | the switch is on exactly when the variable is set and spells "true" in some mix of cases; the default "false" is off |
| `Config.LowerIsTrue` | config.py:58 | lower-casing a value gives "true" exactly for the case variants of "true", with no trimming |
| `Config.SwitchOffValues` | config.py:58 | examples of `UseTinyLlamaLocal`: unset, "1", "yes", " true", "false" and "true " all leave the switch off |
| `Config.SwitchOnValues` | config.py:58 | examples of `UseTinyLlamaLocal`: "true", "True", "TRUE" and "tRuE" turn it on |
| `Config.DataPathsUnderData` | config.py:36-39 | the raw and processed data files are distinct and both lie below BASE_DIR/data |
| `Config.KbPathsApart` | config.py:45-46 | the knowledge base and the vector store lie below BASE_DIR, and neither is inside the other |
| `Config.InsertIfAbsent` | config.py:25-26 | the entry ends up on the search path exactly once if it was absent, put in front, and nothing changes if it was present |
| `Config.InsertIfAbsentIdempotent` | config.py:25-26 | running the guarded insertion twice gives the same path as once |
| `DataRunner.CleanCode` | pipeline/data_runner.py:18-32 | the cleaned code contains no backtick and has no leading or trailing whitespace |
| `DataRunner.CleanCodeOfFence` | pipeline/data_runner.py:23-32 | text without backticks fenced as "```" + tag + text + "```", with the tag "python" in any letter case, cleans to the text stripped |
| `DataRunner.CleanCodeOfPythonBlock` | pipeline/data_runner.py:23-32 | a "```python" block in any case, with its code on the lines between the fences, cleans to the code stripped |
| `DataRunner.CleanCodeOfBareFence` | pipeline/data_runner.py:23-32 | text without backticks that does not start with "python" in any case, fenced by "```" on both sides, cleans to the text stripped |
| `DataRunner.CleanCodeOfUntaggedBlock` | pipeline/data_runner.py:23-32 | a block fenced by "```" lines without a tag cleans to its code stripped |
| `DataRunner.CleanCodeWithoutBackticks` | pipeline/data_runner.py:23-32 | for input without backticks the cleaner only strips |
| `DataRunner.CleanCodeIdempotent` | pipeline/data_runner.py:18-32 | cleaning cleaned code changes nothing |
| `DataRunner.DeletionsKeepBacktickFree` | pipeline/data_runner.py:26-30 | the three deletions leave a backtick-free text unchanged |
| `DataRunner.InitialLocals` | pipeline/data_runner.py:44 | the namespace handed to `exec` binds `df` to the data frame and nothing else |
| `DataRunner.ExecErrorShowsCode` | pipeline/data_runner.py:48-51 | the execution error message contains both the failure's message and the cleaned code |
| `DataRunner.Dtypes` | pipeline/data_runner.py:68 | the dtype map has exactly one key per distinct column name, each with that column's dtype; it succeeds exactly when no column name repeats, and otherwise fails with pandas' AttributeError |
| `DataRunner.PandasRun` | pipeline/data_runner.py:35-71 | the cleaned code, not the raw code, runs in the namespace of `df` alone. An exception from exec is wrapped in a RuntimeError carrying the cleaned code, while SystemExit, KeyboardInterrupt, GeneratorExit and BaseExceptionGroup, which `except Exception` does not catch, pass unchanged. A namespace without `result_df` raises the missing-result error. A failed coercion raises its error. Once a table is bound, the run succeeds exactly when no column name repeats, and a repeated name, in a frame or a coerced result, raises pandas' AttributeError. On success the table is the bound frame or its coercion, and the stats give its row count, its columns in order and one dtype per column |
| `DataRunner.RunPandasCode` | pipeline/data_runner.py:35-71 | the step-by-step run over `local_vars` ends exactly as `PandasRun` describes, including the exceptions that pass unchanged |
| `Services.FirstContent` | pipeline/code_generator.py:114 | `choices[0].message.content.strip()` succeeds exactly when there is a first choice with content, and gives that content stripped |
| `Services.Texts` | pipeline/code_generator.py:44 | the list of document texts, one per document, in retrieval order |
| `Services.ContextTextShape` | pipeline/code_generator.py:44 | no documents give "", one gives its text, and concatenated lists join with one blank line between |
| `CodeGenerator.ClassifyPriority` | pipeline/code_generator.py:47-67 | each intent is chosen exactly when its keywords occur in the lower-cased question and no earlier test matched: correlation, then ranking, then rate, then none |
| `CodeGenerator.TopicIsRanking` | pipeline/code_generator.py:59 | keywords match as substrings, so a question with "topic" and no correlation keyword is a ranking question |
| `CodeGenerator.UpperCaseKeyword` | pipeline/code_generator.py:47-50 | "FACTORS" selects correlation guidance, since the question is lower-cased first |
| `CodeGenerator.GeneralQuestionHasNoGuidance` | pipeline/code_generator.py:49 | an example of the fall-through case: a question that matches no keyword gets the empty guidance |
| `CodeGenerator.TemplateHasNoMargin` | pipeline/code_generator.py:75-96 | dedent of the prompt removes no indentation and only empties the whitespace-only lines |
| `CodeGenerator.TemplateBlankLines` | pipeline/code_generator.py:75-96 | emptying whitespace-only lines acts on each filled-in part separately and leaves the headings |
| `CodeGenerator.PromptLayout` | pipeline/code_generator.py:43-96 | the prompt holds the context, then the question, then the guidance between the fixed headings, followed by the instructions |
| `CodeGenerator.PromptShowsQuestion` | pipeline/code_generator.py:79-80 | a question without whitespace-only lines appears in the prompt exactly as asked |
| `CodeGenerator.FenceCleanup` | pipeline/code_generator.py:117 | after fence removal the code contains no "```" and is stripped |
| `CodeGenerator.NoLowerPythonFence` | pipeline/code_generator.py:117 | a fenced block whose tag is not exactly "python" holds no "```python" |
| `CodeGenerator.FenceCleanupKeepsOtherTags` | pipeline/code_generator.py:117 | removal of "```python" is case-sensitive: a block fenced with any other tag loses only its fences |
| `CodeGenerator.CapitalisedTagSurvives` | pipeline/code_generator.py:117 | a "```Python" block keeps the word "Python" in the cleaned code |
| `CodeGenerator.GeneratePandasCode` | pipeline/code_generator.py:99-118 | retrieval of four documents comes first, and its failure ends the call. After a successful retrieval exactly one chat request follows, carrying the system prompt, the built prompt and the configured model. The call succeeds exactly when the chat succeeds and its first choice has content; a chat error or a missing content is passed on as the call's error. The result is the first choice stripped and cleaned of fences |
| `CodeGenerator.FourDocumentsRequested` | pipeline/code_generator.py:101 | the generated code depends on retrieval only through the request for four documents |
| `InsightGenerator.InsightTemplateHasNoMargin` | pipeline/insight_generator.py:40-58 | dedent of the insight prompt removes no indentation and only empties the whitespace-only lines |
| `InsightGenerator.InsightTemplateBlankLines` | pipeline/insight_generator.py:40-57 | emptying whitespace-only lines acts on each part separately and leaves the headings |
| `InsightGenerator.InsightPromptLayout` | pipeline/insight_generator.py:33-58 | the pair returned is the prompt and the context texts joined by blank lines; the prompt holds the question, the preview, the stats and the context in that order under their headings |
| `InsightGenerator.GenerateInsights` | pipeline/insight_generator.py:61-95 | five documents are retrieved first, and a failure there ends the call. With the switch on, the narrator receives the same context texts, and its answer is returned unchanged. With the switch off, the built prompt goes to the configured chat model in one request. A chat error is the call's error; otherwise the result is the first choice's content stripped, or the error of a reply without content |
| `InsightGenerator.Dispatch` | pipeline/insight_generator.py:76-95 | with the switch on, the one request is the local generation and its result is the narrator's; with it off, the one request is the chat, and its error or its first choice's content, stripped, is the result |
| `InsightGenerator.LocalNarratorOnly` | pipeline/insight_generator.py:76-82 | with the switch on no chat request is made |
| `InsightGenerator.ChatNarratorOnly` | pipeline/insight_generator.py:84-95 | with the switch off TinyLlama is never asked |
| `InsightGenerator.PreviewOfFirstRows` | pipeline/insight_generator.py:67 | two result tables that agree on their columns and first ten rows give the same narrative and requests |
| `Orchestrator.AnswerQuestion` | pipeline/orchestrator.py:8-25 | the stages load, generate, run and narrate in that order, each on the previous result. The first failure is the call's failure, and no later stage runs. Once loading, generation and the run have succeeded, the call returns the record exactly when narration succeeds, and narration's error otherwise. On success the record holds the generator's code as returned, together with the run's table and stats, which are also the ones narrated |
| `Orchestrator.InsightFailureStops` | pipeline/orchestrator.py:15-18 | once the code has run, a narration failure is the call's failure, after every earlier request was made |
| `Orchestrator.CodeGenerationConsults` | pipeline/orchestrator.py:12 | code generation only retrieves and chats |
| `Orchestrator.InsightsConsult` | pipeline/orchestrator.py:18 | narration only retrieves, chats or asks TinyLlama |
| `Orchestrator.StagesOnce` | pipeline/orchestrator.py:9-18 | every way the request record can end loads once, at the start, and runs code at most once |
| `Orchestrator.EachStageOnce` | pipeline/orchestrator.py:9-18 | each call loads the data set exactly once, first, with nothing cached, and runs the code at most once |
| `Orchestrator.CleaningChangesBackticks` | pipeline/orchestrator.py:12-15 | code holding a backtick is not the text that is run |
| `Orchestrator.RecordKeepsRawCode` | pipeline/orchestrator.py:12-21 | the record's code is the generator's output verbatim, and its cleaned form is what was run |
| `TinyLlamaNarrative.MarkerShape` | finetuning/tinyllama_narrative.py:59 | the marker "Answer:" starts with a capital A, has no line break or space, and ends in its only colon |
| `TinyLlamaNarrative.ExtractAnswer` | finetuning/tinyllama_narrative.py:79-83 | the answer is stripped; without a marker it is the whole text stripped |
| `TinyLlamaNarrative.AnswerFollowsFirstMarker` | finetuning/tinyllama_narrative.py:81-82 | the answer is what follows the first "Answer:", stripped, whatever follows it |
| `TinyLlamaNarrative.LaterMarkersKept` | finetuning/tinyllama_narrative.py:82 | a later "Answer:" stays in the answer, since the split is at most one |
| `TinyLlamaNarrative.NarrativePrompt` | finetuning/tinyllama_narrative.py:51-60 | the prompt ends with "Answer:" |
| `TinyLlamaNarrative.NoMarkerWithoutA` | finetuning/tinyllama_narrative.py:59 | a text without a capital A holds no marker |
| `TinyLlamaNarrative.FixedTextHasNoA` | finetuning/tinyllama_narrative.py:44-58 | the system text, labels and closing request have no capital A |
| `TinyLlamaNarrative.MarkerOnlyAtEnd` | finetuning/tinyllama_narrative.py:51-60 | the prompt lists the system text, question, results, stats and context in order, then the request. When no part holds "Answer:", the only marker is the one that ends the prompt |
| `TinyLlamaNarrative.EchoedPromptGivesContinuation` | finetuning/tinyllama_narrative.py:51-83 | if the decoded text echoes the prompt and continues, the narrative is the continuation stripped |
| `TinyLlamaNarrative.Narrative` | finetuning/tinyllama_narrative.py:35-83 | one generation request with the prompt and 220 new tokens; the narrative is the extracted answer, and a generation failure is the call's |
| `TinyLlamaNarrative.WithPadding` | finetuning/tinyllama_narrative.py:27-29 | the tokenizer always has a padding token, the end-of-sequence one when none was set, and nothing else about it changes |
| `TinyLlamaNarrative.FreshLoad` | finetuning/tinyllama_narrative.py:19-29 | a load succeeds exactly when the base model, the adapter and the tokenizer all load. It then gives the model with the adapter attached and the base tokenizer with its padding set. Otherwise the error is that of the first step to fail, in the order base, adapter, tokenizer |
| `TinyLlamaNarrative.ModelCache.constructor` | finetuning/tinyllama_narrative.py:11-12 | the memo starts empty |
| `TinyLlamaNarrative.ModelCache.LoadModel` | finetuning/tinyllama_narrative.py:14-32 | a stored pair is returned unchanged and nothing is loaded; otherwise one fresh load is made, stored only on success |
| `TinyLlamaNarrative.LoadedOnce` | finetuning/tinyllama_narrative.py:14-17 | after a successful first call, a second returns the same pair, and the two calls together start at most one load |
| `Tables.Head` | pipeline/insight_generator.py:67 | `head(n)` keeps the columns and the first n rows, or all rows when there are fewer |
| `Tables.ColumnIndex` | pipeline/data_loader.py:109 | the position of the first column with the name, present exactly when the name is a column |
| `DataLoader.Lookup` | pipeline/data_loader.py:99 | the map yields a target exactly for its source names, and the pair is in the map |
| `DataLoader.RenameColumns` | pipeline/data_loader.py:37-100 | renaming keeps the rows and the column order, leaves unmapped names as they are and gives every mapped name, at each position it holds, its own target in the map |
| `DataLoader.RenameMapIsDictionary` | pipeline/data_loader.py:43-97 | no source name appears twice in the rename map |
| `DataLoader.RenameMapInjective` | pipeline/data_loader.py:43-97 | no two source names share a target |
| `DataLoader.RenameKeepsMappedApart` | pipeline/data_loader.py:43-99 | two different mapped columns get different names |
| `DataLoader.ConvertedListsDistinct` | pipeline/data_loader.py:108-130 | the date list and the numeric list name each column once |
| `DataLoader.ConvertCell` | pipeline/data_loader.py:110 | one cell of a row is converted and the rest kept |
| `DataLoader.ConvertNamed` | pipeline/data_loader.py:109-110 | the first column with the name is converted cell by cell; every other cell and the shape stay |
| `DataLoader.ConvertAll` | pipeline/data_loader.py:108-133 | converting a list of names converts, in every row, exactly each listed name's first column and keeps every other cell |
| `DataLoader.ConvertColumns` | pipeline/data_loader.py:108-133 | the loop over the names computes `ConvertAll` |
| `DataLoader.SetColumn` | pipeline/data_loader.py:137-142 | assigning a column replaces an existing one in place or appends it; every other column keeps its cells, and the named column holds the new cells |
| `DataLoader.AddDelay` | pipeline/data_loader.py:136-139 | the step keeps the table's shape and row count |
| `DataLoader.AddOnTime` | pipeline/data_loader.py:141-142 | the step keeps the table's shape and row count |
| `DataLoader.DelayDerived` | pipeline/data_loader.py:136-139 | without both day columns nothing changes; with them, every row's delay is real days minus scheduled days, missing when either is |
| `DataLoader.OnTimeDerived` | pipeline/data_loader.py:141-142 | without a delay column nothing changes; with it, on-time is true exactly when the delay is present and at most 0 |
| `DataLoader.DelayKeeps` | pipeline/data_loader.py:136-139 | adding the delay column leaves every other column at its position and with its values |
| `DataLoader.OnTimeKeeps` | pipeline/data_loader.py:141-142 | adding the on-time column leaves every other column at its position and with its values |
| `DataLoader.PreparedRowsDerived` | pipeline/data_loader.py:136-142 | with both day columns present, every row has its derived delay and on-time values |
| `DataLoader.Select` | pipeline/data_loader.py:146-151 | filtering keeps the accepted rows in their original order |
| `DataLoader.SubsequenceTransitive` | pipeline/data_loader.py:144-151 | a subsequence of a subsequence is a subsequence, with the composed positions |
| `DataLoader.DropDuplicates` | pipeline/data_loader.py:145-146 | deduplication keeps the columns, and its rows are a subsequence of the input's |
| `DataLoader.DuplicatesDropped` | pipeline/data_loader.py:145-146 | with an item-id column, the kept rows have distinct ids; they are exactly the first rows of each id, in order; every id is kept |
| `DataLoader.KeptKeysUnique` | pipeline/data_loader.py:146 | keeping the first row of each key leaves no key twice |
| `DataLoader.EveryKeyKept` | pipeline/data_loader.py:146 | every key of the input is still present after deduplication |
| `DataLoader.EarliestWithKey` | pipeline/data_loader.py:146 | every row's key has an earliest occurrence at or before it |
| `DataLoader.KeyIndices` | pipeline/data_loader.py:149 | the key positions are those of the key columns present, empty exactly when none is present |
| `DataLoader.DropMissingKeys` | pipeline/data_loader.py:148-151 | with no key column present the table is unchanged. Otherwise the kept rows are exactly the rows with a value in every existing key column, in their order: a row is kept if and only if it has them all |
| `DataLoader.Converted` | pipeline/data_loader.py:105-133 | renaming and conversion keep the row count and have the renamed columns |
| `DataLoader.Prepared` | pipeline/data_loader.py:105-142 | the derived columns keep the row count |
| `DataLoader.Cleaned` | pipeline/data_loader.py:103-153 | the cleaned table is well formed |
| `DataLoader.CleanData` | pipeline/data_loader.py:103-153 | the step-by-step cleaning computes `Cleaned` |
| `DataLoader.CleanedRowsInOrder` | pipeline/data_loader.py:144-151 | the output rows are a subsequence of the prepared rows, in their original order, under the same columns |
| `DataLoader.CleanedIdsUnique` | pipeline/data_loader.py:145-151 | item ids are unique after cleaning. Every kept row is the first occurrence of its id, because deduplication runs before the null drop |
| `DataLoader.DedupThenDrop` | pipeline/data_loader.py:145-151 | the same, for deduplication followed by the null drop on any table |
| `DataLoader.CleanedKeepsFirstComplete` | pipeline/data_loader.py:144-151 | nothing else is dropped: every prepared row that is first with its item id and has every existing key value is in the output |
| `DataLoader.FirstCompleteKept` | pipeline/data_loader.py:144-151 | the same, for deduplication followed by the null drop on any table |
| `DataLoader.CleanedHasKeys` | pipeline/data_loader.py:148-151 | no output row lacks a value in order_id, order_date or sales where that column exists |
| `DataLoader.CleanedDelays` | pipeline/data_loader.py:136-151 | with both day columns, every output row still has its delay and on-time values derived as defined |
| `DataLoader.KeptRowsDerived` | pipeline/data_loader.py:144-151 | filtering keeps the derivation true of every remaining row |
| `DataLoader.DerivedOnlyWithSources` | pipeline/data_loader.py:136-142 | the delay column exists after cleaning exactly when it did before or both day columns did; on-time exists exactly when it did or a delay column does |
| `Retriever.Retriever.constructor` | rag/retriever.py:20-21 | both caches start empty |
| `Retriever.Retriever.GetEmbeddingModel` | rag/retriever.py:24-28 | a cached model is returned unchanged and nothing is loaded; otherwise the configured model is loaded once and cached on success |
| `Retriever.Retriever.GetCollection` | rag/retriever.py:31-37 | a cached collection is returned unchanged and nothing is opened; otherwise "insightweaver_kb" is opened once under the store directory and cached on success |
| `Retriever.ModelLoadedOnce` | rag/retriever.py:24-28 | after a successful first request, a second returns the same model, and the two together load at most once |
| `Retriever.CollectionOpenedOnce` | rag/retriever.py:31-37 | after a successful first request, a second returns the same collection, and the two together open at most once |
| `Retriever.ZipDocs` | rag/retriever.py:51-58 | one document per pair, in order, as many as the shorter list |
| `Retriever.RetrieveContext` | rag/retriever.py:40-59 | the model, then the collection, is taken from its cache or created. A cache that was set is kept, one that was filled holds the value, and a failed creation ends the call with its error and leaves its cache empty. Then the query is encoded, and a failed encoding gives its error. The collection is asked for top_k (5 by default) neighbours of the embedding, and a failed query gives its error. An answer without a first list fails with IndexError, and otherwise the call succeeds. The documents then pair the first query's texts with their metadata, in order, as many as the shorter list |
| `Retriever.RetrievalCreatesOnce` | rag/retriever.py:20-59 | after a successful retrieval, a second one answers the same, and the two together load at most one model and open at most one collection |
| `KnowledgeBase.CategoryIsParentDirectory` | rag/build_kb.py:41 | the category is the directory holding the file: its own directory below the knowledge base, or the knowledge base for a top-level file |
| `KnowledgeBase.MetadataFor` | rag/build_kb.py:38-43 | the metadata has exactly the keys relative_path and category |
| `KnowledgeBase.LoadKbTexts` | rag/build_kb.py:28-46 | the call succeeds exactly when every file reads. Then the three lists have one entry per file, and entry i holds the i-th file's text, metadata and the id str(i). On failure the error is that of the first unreadable file |
| `KnowledgeBase.IdsDistinct` | rag/build_kb.py:44 | the ids are pairwise distinct |
| `KnowledgeBase.BuildChromaStore` | rag/build_kb.py:49-79 | the store directory is made, then the collection opened under the name "insightweaver_kb" with its description metadata, and either failure ends the call with its error. Then the files are read: a failed read ends the call with the error of the first unreadable file, and with no files nothing more happens. Otherwise the configured model is loaded and the texts encoded, and a failure of either ends the call. Last, the texts are upserted with their metadata, their ids and the embeddings, and the upsert's outcome is the call's |
| `SyntheticQa.Templates` | synthetic/generate_qa.py:37-42 | there are four templates |
| `SyntheticQa.GenerateQuestion` | synthetic/generate_qa.py:36-43 | the question is one of the four templates filled with the metric and segment |
| `SyntheticQa.QuestionMentions` | synthetic/generate_qa.py:37-42 | every template mentions the metric and the segment |
| `SyntheticQa.Patterns` | synthetic/generate_qa.py:48-60 | there are three patterns |
| `SyntheticQa.GenerateAnswer` | synthetic/generate_qa.py:46-61 | the answer is one of the three patterns filled with the metric and segment |
| `SyntheticQa.AnswerMentions` | synthetic/generate_qa.py:48-60 | every pattern mentions the metric and the segment |
| `SyntheticQa.ExampleFor` | synthetic/generate_qa.py:68-83 | an example has exactly five keys. Its metric, segment and focus come from their lists. Its question is a template + " I want to " + focus + ".", and its answer a pattern, both built from the values it records |
| `SyntheticQa.GenerateDataset` | synthetic/generate_qa.py:64-83 | exactly n examples (80 by default), the k-th made from the k-th draw |
| `SyntheticQa.ExampleConsistent` | synthetic/generate_qa.py:72-81 | each question mentions its recorded metric, segment and focus, and each answer its metric and segment |
| `SyntheticQa.ListsHaveNoA` | synthetic/generate_qa.py:9-33 | no metric, segment or focus has a capital A |
| `SyntheticQa.GeneratedQuestionHasNoMarker` | synthetic/generate_qa.py:72 | no generated question contains "Answer:" |
| `SyntheticQa.AnswerStripped` | synthetic/generate_qa.py:48-60 | every answer is its own strip |
| `SyntheticQa.GeneratedExampleRoundTrip` | synthetic/generate_qa.py:64-83 | every generated example yields an instruction record. The narrator's extraction, applied to the record's training text, gives back the example's answer exactly |
| `InstructionRecords.Instruction` | synthetic/build_tinyllama_instructions.py:24-29 | the instruction begins with SYSTEM_PROMPT + "\n\nQuestion: " + the question and ends with the fixed request |
| `InstructionRecords.RecordFor` | synthetic/build_tinyllama_instructions.py:20-34 | a record exists exactly when the item has a question and an answer. A missing question raises first, then a missing answer. The record's output is the answer unchanged |
| `InstructionRecords.BuildInstructions` | synthetic/build_tinyllama_instructions.py:19-35 | one record is written per item, in input order. A failing item stops the loop with its error, after every earlier record was written |
| `InstructionRecords.FixedTextHasNoA` | synthetic/build_tinyllama_instructions.py:8-29 | the system prompt and the request have no capital A |
| `InstructionRecords.SystemPromptHasNoMarker` | synthetic/build_tinyllama_instructions.py:8-12 | SYSTEM_PROMPT does not contain "Answer:" |
| `InstructionRecords.InstructionHasNoMarker` | synthetic/build_tinyllama_instructions.py:24-29 | an instruction holds "Answer:" only if its question does |
| `InstructionRecords.InstructionStripped` | synthetic/build_tinyllama_instructions.py:24-29 | every instruction is its own strip |
| `TrainFormatting.FormattingFunc` | finetuning/train_tinyllama_lora.py:17-24 | the result has the single key "text", holding strip(instruction) + "\n\nAnswer: " + strip(output); a missing instruction or output raises |
| `TrainFormatting.SurroundingSpaceIgnored` | finetuning/train_tinyllama_lora.py:19-20 | whitespace around the instruction or the output does not change the text |
| `TrainFormatting.MarkerAfterBlankLine` | finetuning/train_tinyllama_lora.py:23 | after a marker-free text and a blank line, the marker starts the answer |
| `TrainFormatting.ExtractionRecoversOutput` | finetuning/train_tinyllama_lora.py:19-23 | if the stripped instruction holds no "Answer:", the narrator's extraction applied to the training text gives back the stripped output |
| `TrainFormatting.RecordRoundTrip` | finetuning/train_tinyllama_lora.py:17-24 | every record built from a question without "Answer:" formats, and the extraction of its training text gives back the answer stripped |
| `EvalTinyLlama.AllOk` | evaluation/eval_tinyllama.py:37-44 | applying a step to each item in order succeeds exactly when it succeeds on every item, giving one result per item in order; otherwise the result is the error of the first item it fails on |
| `EvalTinyLlama.FailureStays` | evaluation/eval_tinyllama.py:37-44 | a failure among the first items stays the result however many items follow |
| `EvalTinyLlama.ReadExamples` | evaluation/eval_tinyllama.py:35-40 | the read loop parses the first min(5, number of lines) lines, in file order |
| `EvalTinyLlama.PredictionIsNarratorAnswer` | evaluation/eval_tinyllama.py:65 | the prediction agrees with the narrator's extraction on every text |
| `EvalTinyLlama.PromptStartsTrainingText` | evaluation/eval_tinyllama.py:45 | for a stripped instruction, the evaluation prompt is a prefix of the training text |
| `EvalTinyLlama.EchoedPromptPredicts` | evaluation/eval_tinyllama.py:45-65 | if the model echoes a marker-free prompt and continues, the prediction is the continuation stripped |
| `EvalTinyLlama.Evaluate` | evaluation/eval_tinyllama.py:42-65 | a missing instruction, then a missing output, raises. Otherwise the prompt instruction + "\n\nAnswer:" is generated from with 120 new tokens. The call succeeds exactly when that generation does and otherwise fails with its error; the prediction is extracted from the decoded text |
| `EvalTinyLlama.EvaluateAll` | evaluation/eval_tinyllama.py:42-71 | the second loop evaluates and shows every example read, in order, until one fails. The evaluations shown before a failure are returned with its error, and the loop fails exactly as the fold `AllOk` over the examples does |

## Left out

- app.py (the Streamlit interface, charts, history and export) is not part of this model.
- `load_raw_data`, `save_processed_data` and `load_processed_df` are file I/O. So are `rglob`, `read_text`, `json.load`/`json.dump` and the writing of lines. Reads become supplied functions or inputs, writes become the returned values, and the existence check of the raw file is not modelled.
- Python's `exec` is a supplied function from code and namespace to an outcome. Nothing is claimed about what the executed code can reach beyond its namespace.
- pandas internals are supplied functions: `pd.DataFrame(x)` coercion, dtype names, `to_markdown`, and `to_datetime`/`to_numeric` parsing (one cell function each). Rendering the stats dict with `str` is also supplied. Column labels are strings, so the integer label 0 that `pd.DataFrame` gives a coerced Series, and the tuple labels of multi-level aggregations, are not modelled.
- Numbers are whole numbers, and a missing cell stands for NaN, NaT or None. A missing or non-numeric day cell gives a missing delay, as NaN propagates through the subtraction. Non-integral days and other floating-point behaviour are not modelled.
- A column name that the data frame holds twice: renaming renames it at every position, as pandas does, but conversion, assignment and reading a field act only on its first occurrence. pandas would act on all of them.
- Comparing a non-numeric delay with 0 raises in pandas; in the model it gives False.
- DataLoader.Cleaned: states only that the table is well formed. The content of the cleaned table is stated by the lemmas about `Cleaned` listed in the table above, from `CleanedRowsInOrder` to `DerivedOnlyWithSources`. Among them are `CleanedIdsUnique` (only first rows of each id) and `CleanedKeepsFirstComplete` (every first row with its keys).
- DataLoader.AddDelay: states only the shape. The content is stated by `DelayDerived` and `DelayKeeps`.
- DataLoader.AddOnTime: states only the shape. The content is stated by `OnTimeDerived` and `OnTimeKeeps`.
- The OpenAI chat completions are a supplied function from request to reply. The request carries the model, the messages, the temperature and the token limit.
- torch, transformers and PEFT are supplied functions. This covers model and tokenizer loading and `generate`. The tokenizer truncation to 512 tokens, the device and dtype choice, and the sampling parameters `top_p` and `temperature` are not modelled.
- LoRA training (`main` of finetuning/train_tinyllama_lora.py) is not modelled; only `formatting_func` is.
- Chroma and SentenceTransformer are supplied functions: opening or creating the collection, `encode`, `query` and `upsert`. In building the store, making the directory, opening the collection, loading the model and the upsert are recorded as requests whose outcome is supplied, and `encode` is a supplied function of the model name and the texts.
- DataRunner.CleanCode: its own contract states only that the result has no backtick and no surrounding whitespace. Exact results are stated for text without backticks (`CleanCodeWithoutBackticks`) and for fenced text, tagged "python" in any letter case or untagged (`CleanCodeOfFence`, `CleanCodeOfPythonBlock`, `CleanCodeOfBareFence`, `CleanCodeOfUntaggedBlock`). Other text with backticks is covered only by the two properties and by `CleanCodeIdempotent`.
- `random.choice` in synthetic/generate_qa.py: the choices are supplied as indices into the lists, one `Draw` per example.
- `TINYLLAMA_ADAPTER_PATH` is a parameter of the load, and `BASE_DIR` is a parameter of the paths.
- The module-level `sys.path` patch of rag/retriever.py, rag/build_kb.py and pipeline/data_loader.py is the same guarded insertion as the one modelled for config.py.
- The narrator's `max_new_tokens` is always its default of 220, since no caller in the pipeline passes another value.
- The evaluation script's `load_model` and its printing are not modelled; its generation is the supplied `generate` function.
