/**
 * The outside world of the question-answering pipeline: the dataset file, the
 * vector store, the chat-completion API, Python's `exec`, pandas formatting
 * and the local TinyLlama model, each as a supplied function, together with
 * the record of the requests made to them.
 */
module Services {
  import opened Wrappers
  import opened Text
  import opened Tables
  import opened Retriever
  import DataRunner
  import Config

  /** One chat message: its role ("system" or "user") and its text. */
  datatype Message = Message(role: string, content: string)

  /** A chat-completion request; `maxTokens` is None when the call sets no limit. */
  datatype ChatRequest = ChatRequest(model: string, messages: seq<Message>, temperature: real, maxTokens: Option<nat>)

  /** A chat-completion reply: each choice's `message.content`, which may be None. */
  type ChatReply = seq<Option<string>>

  /** A request the pipeline makes to the outside world. */
  datatype Effect =
    | LoadDataset
    | Retrieve(query: string, topK: nat)
    | Chat(request: ChatRequest)
    | Exec(code: string)
    | Generate(prompt: string, maxNewTokens: nat)

  /**
   * How the outside world answers. `loadDataset` reads the processed parquet
   * file; `retrieve` is `retrieve_context`; `chat` is the completion API;
   * `exec`, `coerce` and `dtypeOf` are as for `run_pandas_code`; `toMarkdown`
   * is `DataFrame.to_markdown()`; `showStats` renders the summary-stats dict
   * with `str`; `generate` loads TinyLlama if needed, tokenizes a prompt,
   * samples a continuation and decodes it; `env` is the process environment.
   */
  datatype World = World(
    loadDataset: () -> Result<Table, Error>,
    retrieve: (string, nat) -> Result<seq<Doc>, Error>,
    chat: ChatRequest -> Result<ChatReply, Error>,
    exec: (string, DataRunner.Namespace) -> DataRunner.ExecOutcome,
    coerce: DataRunner.Obj -> Result<Table, Error>,
    dtypeOf: (Table, string) -> string,
    toMarkdown: Table -> string,
    showStats: DataRunner.SummaryStats -> string,
    generate: (string, nat) -> Result<string, Error>,
    env: Config.Env)

  /** A stage's requests, in order, and how it ended. */
  datatype Step<+T> = Step(effects: seq<Effect>, result: Result<T, Error>)

  /**
   * `resp.choices[0].message.content.strip()`: the first choice's text,
   * stripped. An empty reply fails like indexing an empty list, and a missing
   * content like calling `strip` on None.
   */
  function FirstContent(reply: ChatReply): (r: Result<string, Error>)
    ensures r.Ok? <==> |reply| > 0 && reply[0].Some?
    ensures r.Ok? ==> r.value == Strip(reply[0].value)
  {
    if |reply| == 0 then Err(IndexError())
    else if reply[0].None? then Err(Error("AttributeError", "'NoneType' object has no attribute 'strip'"))
    else Ok(Strip(reply[0].value))
  }

  /** The texts of the retrieved documents joined by blank lines, in retrieval order. */
  function ContextText(docs: seq<Doc>): string {
    JoinWith("\n\n", Texts(docs))
  }

  function Texts(docs: seq<Doc>): (r: seq<string>)
    ensures |r| == |docs| && forall i :: 0 <= i < |docs| ==> r[i] == docs[i].text
  {
    if docs == [] then [] else [docs[0].text] + Texts(docs[1..])
  }

  /** No documents give an empty context, one document gives its text, and more add a blank line between. */
  lemma ContextTextShape(docs: seq<Doc>, more: seq<Doc>)
    ensures ContextText([]) == ""
    ensures |docs| == 1 ==> ContextText(docs) == docs[0].text
    ensures |docs| > 0 && |more| > 0 ==> ContextText(docs + more) == ContextText(docs) + "\n\n" + ContextText(more)
  {
    if |docs| > 0 && |more| > 0 {
      assert Texts(docs + more) == Texts(docs) + Texts(more);
      JoinWithAppend("\n\n", Texts(docs), Texts(more));
    }
  }
}
