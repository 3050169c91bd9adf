/**
 * Retrieval from the knowledge-base vector store: the lazily created
 * embedding model and collection, and the reshaping of a query answer into
 * a list of documents with their metadata.
 */
module Retriever {
  import opened Wrappers
  import opened Tables
  import Config

  /** The metadata stored with a document. */
  type Metadata = map<string, string>

  /** One retrieved document: `{"text": ..., "metadata": ...}`. */
  datatype Doc = Doc(text: string, metadata: Metadata)

  /** A loaded sentence-transformer model, told apart from other loads by `instance`. */
  datatype EmbeddingModel = EmbeddingModel(name: string, instance: nat)

  /** An open Chroma collection. */
  datatype Collection = Collection(path: Config.Path, name: string, instance: nat)

  /** What `collection.query` answers: one list of documents and one of metadatas per query embedding. */
  datatype QueryResult = QueryResult(documents: seq<seq<string>>, metadatas: seq<seq<Metadata>>)

  const CollectionName: string := "insightweaver_kb"
  const DefaultTopK: nat := 5

  /** The reply to `list[0]` on an empty list. */
  function IndexError(): Error {
    Error("IndexError", "list index out of range")
  }

  /** The module-level caches `_embedding_model` and `_collection`. */
  class Retriever {
    var embeddingModel: Option<EmbeddingModel>
    var collection: Option<Collection>
    /**
     * How often `load` and `open` have been called, whether the creation
     * succeeded or not: a cache that is set is never created again, while an
     * empty one is tried again on the next call.
     */
    ghost var modelAttempts: nat
    ghost var collectionAttempts: nat

    /** A cached value was created by one of the attempts. */
    ghost predicate Valid()
      reads this
    {
      && (embeddingModel.Some? ==> modelAttempts > 0)
      && (collection.Some? ==> collectionAttempts > 0)
    }

    constructor()
      ensures Valid() && embeddingModel.None? && collection.None?
    {
      embeddingModel := None;
      collection := None;
      modelAttempts := 0;
      collectionAttempts := 0;
    }

    /**
     * `_get_embedding_model()`: the cached model, or a new one built with
     * `load(EMBEDDING_MODEL_NAME)` on the first call. A failed load caches nothing.
     */
    method GetEmbeddingModel(load: string -> Result<EmbeddingModel, Error>) returns (r: Result<EmbeddingModel, Error>)
      requires Valid()
      modifies this
      ensures Valid() && collection == old(collection) && collectionAttempts == old(collectionAttempts)
      ensures old(embeddingModel).Some? ==> r == Ok(old(embeddingModel).value) && embeddingModel == old(embeddingModel)
      ensures old(embeddingModel).None? ==> r == load(Config.EmbeddingModelName)
      ensures (r.Ok? ==> embeddingModel == Some(r.value)) && (r.Err? ==> embeddingModel.None?)
      ensures modelAttempts == old(modelAttempts) + (if old(embeddingModel).None? then 1 else 0)
    {
      if embeddingModel.None? {
        r := load(Config.EmbeddingModelName);
        modelAttempts := modelAttempts + 1;
        if r.Ok? {
          embeddingModel := Some(r.value);
        }
        return;
      }
      r := Ok(embeddingModel.value);
    }

    /**
     * `_get_collection()`: the cached collection, or the one `open` finds
     * under the vector-store directory on the first call.
     */
    method GetCollection(open: (Config.Path, string) -> Result<Collection, Error>, storeDir: Config.Path)
      returns (r: Result<Collection, Error>)
      requires Valid()
      modifies this
      ensures Valid() && embeddingModel == old(embeddingModel) && modelAttempts == old(modelAttempts)
      ensures old(collection).Some? ==> r == Ok(old(collection).value) && collection == old(collection)
      ensures old(collection).None? ==> r == open(storeDir, CollectionName)
      ensures (r.Ok? ==> collection == Some(r.value)) && (r.Err? ==> collection.None?)
      ensures collectionAttempts == old(collectionAttempts) + (if old(collection).None? then 1 else 0)
    {
      if collection.None? {
        r := open(storeDir, CollectionName);
        collectionAttempts := collectionAttempts + 1;
        if r.Ok? {
          collection := Some(r.value);
        }
        return;
      }
      r := Ok(collection.value);
    }
  }

  /** A second request for the model, after a first that succeeded, loads nothing and returns the same model. */
  method ModelLoadedOnce(rt: Retriever, load: string -> Result<EmbeddingModel, Error>)
    returns (first: Result<EmbeddingModel, Error>, second: Result<EmbeddingModel, Error>)
    requires rt.Valid()
    modifies rt
    ensures first.Ok? ==>
      second == first && rt.modelAttempts == old(rt.modelAttempts) + (if old(rt.embeddingModel).None? then 1 else 0)
  {
    first := rt.GetEmbeddingModel(load);
    second := rt.GetEmbeddingModel(load);
  }

  /** The same for the collection. */
  method CollectionOpenedOnce(rt: Retriever, open: (Config.Path, string) -> Result<Collection, Error>, storeDir: Config.Path)
    returns (first: Result<Collection, Error>, second: Result<Collection, Error>)
    requires rt.Valid()
    modifies rt
    ensures first.Ok? ==>
      second == first && rt.collectionAttempts == old(rt.collectionAttempts) + (if old(rt.collection).None? then 1 else 0)
  {
    first := rt.GetCollection(open, storeDir);
    second := rt.GetCollection(open, storeDir);
  }

  /**
   * The loop over `zip(documents, metadatas)`: one document per pair, in
   * order, stopping at the end of the shorter list.
   */
  method ZipDocs(texts: seq<string>, metas: seq<Metadata>) returns (docs: seq<Doc>)
    ensures |docs| == Min(|texts|, |metas|)
    ensures forall i :: 0 <= i < |docs| ==> docs[i] == Doc(texts[i], metas[i])
  {
    docs := [];
    var i := 0;
    while i < |texts| && i < |metas|
      invariant i <= |texts| && i <= |metas| && |docs| == i
      invariant forall k :: 0 <= k < i ==> docs[k] == Doc(texts[k], metas[k])
    {
      docs := docs + [Doc(texts[i], metas[i])];
      i := i + 1;
    }
  }

  /** What a lazy getter gives: the cached value, or else the fresh one. */
  function Cached<T>(cache: Option<T>, loaded: Result<T, Error>): Result<T, Error> {
    if cache.Some? then Ok(cache.value) else loaded
  }

  /**
   * `retrieve_context(query, top_k)`: embed the query, ask the collection for
   * `top_k` neighbours and pair the first query's documents with their metadata.
   */
  method RetrieveContext(rt: Retriever, query: string, topK: nat := DefaultTopK,
                         load: string -> Result<EmbeddingModel, Error>,
                         open: (Config.Path, string) -> Result<Collection, Error>, storeDir: Config.Path,
                         encode: (EmbeddingModel, seq<string>) -> Result<seq<seq<real>>, Error>,
                         search: (Collection, seq<seq<real>>, nat) -> Result<QueryResult, Error>)
    returns (r: Result<seq<Doc>, Error>)
    requires rt.Valid()
    modifies rt
    ensures rt.Valid()
    // the model: kept when cached, otherwise loaded, and a failed load ends the call
    ensures var model := Cached(old(rt.embeddingModel), load(Config.EmbeddingModelName));
      && (old(rt.embeddingModel).Some? ==> rt.embeddingModel == old(rt.embeddingModel))
      && (model.Ok? ==> rt.embeddingModel == Some(model.value))
      && (model.Err? ==> r == Err(model.error) && rt.embeddingModel.None? && rt.collection == old(rt.collection))
    // the collection, likewise, then the query and the reshaping of its answer
    ensures var model := Cached(old(rt.embeddingModel), load(Config.EmbeddingModelName));
      var coll := Cached(old(rt.collection), open(storeDir, CollectionName));
      model.Ok? ==>
        && (old(rt.collection).Some? ==> rt.collection == old(rt.collection))
        && (coll.Ok? ==> rt.collection == Some(coll.value))
        && (coll.Err? ==> r == Err(coll.error) && rt.collection.None?)
        && (coll.Ok? ==>
              var embedding := encode(model.value, [query]);
              && (embedding.Err? ==> r == Err(embedding.error))
              && (embedding.Ok? ==>
                    var answer := search(coll.value, embedding.value, topK);
                    && (answer.Err? ==> r == Err(answer.error))
                    && (answer.Ok? ==>
                          && (r.Ok? <==> |answer.value.documents| > 0 && |answer.value.metadatas| > 0)
                          && (r.Err? ==> r == Err(IndexError())))))
    // a creation is attempted only for an empty cache, and the collection only once the model is there
    ensures rt.modelAttempts == old(rt.modelAttempts) + (if old(rt.embeddingModel).None? then 1 else 0)
    ensures rt.collectionAttempts == old(rt.collectionAttempts)
      + (if Cached(old(rt.embeddingModel), load(Config.EmbeddingModelName)).Ok? && old(rt.collection).None? then 1 else 0)
    ensures r.Ok? ==>
      && rt.embeddingModel.Some? && rt.collection.Some?
      && encode(rt.embeddingModel.value, [query]).Ok?
      && var answer := search(rt.collection.value, encode(rt.embeddingModel.value, [query]).value, topK);
         && answer.Ok? && |answer.value.documents| > 0 && |answer.value.metadatas| > 0
         && |r.value| == Min(|answer.value.documents[0]|, |answer.value.metadatas[0]|)
         && forall i :: 0 <= i < |r.value| ==>
              r.value[i] == Doc(answer.value.documents[0][i], answer.value.metadatas[0][i])
  {
    var model := rt.GetEmbeddingModel(load);
    if model.Err? {
      return Err(model.error);
    }
    var coll := rt.GetCollection(open, storeDir);
    if coll.Err? {
      return Err(coll.error);
    }
    var embedding := encode(model.value, [query]);
    if embedding.Err? {
      return Err(embedding.error);
    }
    var answer := search(coll.value, embedding.value, topK);
    if answer.Err? {
      return Err(answer.error);
    }
    if |answer.value.documents| == 0 || |answer.value.metadatas| == 0 {
      return Err(IndexError());
    }
    var docs := ZipDocs(answer.value.documents[0], answer.value.metadatas[0]);
    return Ok(docs);
  }

  /**
   * Two retrievals in a row: after a first one that succeeded, the second
   * answers the same and no second model or collection has been created.
   */
  method RetrievalCreatesOnce(rt: Retriever, query: string, topK: nat,
                              load: string -> Result<EmbeddingModel, Error>,
                              open: (Config.Path, string) -> Result<Collection, Error>, storeDir: Config.Path,
                              encode: (EmbeddingModel, seq<string>) -> Result<seq<seq<real>>, Error>,
                              search: (Collection, seq<seq<real>>, nat) -> Result<QueryResult, Error>)
    returns (first: Result<seq<Doc>, Error>, second: Result<seq<Doc>, Error>)
    requires rt.Valid()
    modifies rt
    ensures first.Ok? ==>
      && second == first
      && rt.modelAttempts == old(rt.modelAttempts) + (if old(rt.embeddingModel).None? then 1 else 0)
      && rt.collectionAttempts == old(rt.collectionAttempts) + (if old(rt.collection).None? then 1 else 0)
  {
    first := RetrieveContext(rt, query, topK, load, open, storeDir, encode, search);
    var model, coll := rt.embeddingModel, rt.collection;
    second := RetrieveContext(rt, query, topK, load, open, storeDir, encode, search);
    if first.Ok? {
      assert rt.embeddingModel == model && rt.collection == coll;
      assert second.Ok? && |second.value| == |first.value|;
      assert forall i :: 0 <= i < |first.value| ==> second.value[i] == first.value[i];
      assert second.value == first.value;
    }
  }
}
