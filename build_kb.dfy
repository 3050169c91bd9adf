/**
 * Building the knowledge-base vector store: every markdown file found below
 * the knowledge-base directory becomes one text, one metadata record and one
 * id, at the same position in three parallel lists; the lists are upserted
 * into the collection unless they are empty.
 */
module KnowledgeBase {
  import opened Wrappers
  import opened Text
  import Config
  import Retriever

  /** A file found by the search, as its path components below the knowledge-base directory. */
  type RelPath = seq<string>

  /** The file's absolute path. */
  function FullPath(kbBase: Config.Path, rel: RelPath): Config.Path {
    kbBase + rel
  }

  /** `str(fpath.relative_to(KB_BASE_PATH))`. */
  function RelativePath(rel: RelPath): string {
    JoinWith("/", rel)
  }

  /** `fpath.parts[-2]`: the last component but one of the absolute path. */
  function Category(kbBase: Config.Path, rel: RelPath): string
    requires |kbBase| > 0 && |rel| > 0
  {
    var full := FullPath(kbBase, rel);
    full[|full| - 2]
  }

  /**
   * The category is the name of the directory holding the file: its own
   * directory below the knowledge base, or the knowledge-base directory for a
   * file at the top.
   */
  lemma CategoryIsParentDirectory(kbBase: Config.Path, rel: RelPath)
    requires |kbBase| > 0 && |rel| > 0
    ensures Config.Below(kbBase, FullPath(kbBase, rel))
    ensures |rel| >= 2 ==> Category(kbBase, rel) == rel[|rel| - 2]
    ensures |rel| == 1 ==> Category(kbBase, rel) == kbBase[|kbBase| - 1]
  {
    assert FullPath(kbBase, rel)[..|kbBase|] == kbBase;
  }

  /** The metadata of one file: its relative path and its category. */
  function MetadataFor(kbBase: Config.Path, rel: RelPath): (m: Retriever.Metadata)
    requires |kbBase| > 0 && |rel| > 0
    ensures m.Keys == {"relative_path", "category"}
  {
    map["relative_path" := RelativePath(rel), "category" := Category(kbBase, rel)]
  }

  /** The three lists `load_kb_texts` returns. */
  datatype KbTexts = KbTexts(texts: seq<string>, metadatas: seq<Retriever.Metadata>, ids: seq<string>)

  /** The files as the search found them: each has a name, and the base directory is a real path. */
  predicate Discovered(kbBase: Config.Path, files: seq<RelPath>) {
    |kbBase| > 0 && forall k :: 0 <= k < |files| ==> |files[k]| > 0
  }

  /** Position `i` of each list describes the `i`-th file found, and the id is its position in decimal. */
  predicate Describes(kbBase: Config.Path, files: seq<RelPath>, readText: Config.Path -> Result<string, Error>,
                      kb: KbTexts)
    requires Discovered(kbBase, files)
  {
    && |kb.texts| == |files| && |kb.metadatas| == |files| && |kb.ids| == |files|
    && forall i :: 0 <= i < |files| ==> Entry(kbBase, files[i], readText, kb.texts[i], kb.metadatas[i], kb.ids[i], i)
  }

  /** The entries at position `i`: the file's text, its metadata and the id `str(i)`. */
  predicate Entry(kbBase: Config.Path, rel: RelPath, readText: Config.Path -> Result<string, Error>,
                  text: string, metadata: Retriever.Metadata, id: string, i: nat)
    requires |kbBase| > 0 && |rel| > 0
  {
    readText(FullPath(kbBase, rel)) == Ok(text) && metadata == MetadataFor(kbBase, rel) && id == NatToString(i)
  }

  /** Every file found can be read. */
  predicate AllReadable(kbBase: Config.Path, files: seq<RelPath>, readText: Config.Path -> Result<string, Error>) {
    forall k :: 0 <= k < |files| ==> readText(FullPath(kbBase, files[k])).Ok?
  }

  /** `e` is the error of the first file that cannot be read. */
  predicate FirstUnreadable(kbBase: Config.Path, files: seq<RelPath>, readText: Config.Path -> Result<string, Error>,
                            e: Error) {
    exists i :: 0 <= i < |files| && readText(FullPath(kbBase, files[i])) == Err(e)
                && forall k :: 0 <= k < i ==> readText(FullPath(kbBase, files[k])).Ok?
  }

  /**
   * `load_kb_texts()`: one text, metadata record and id appended per file, in
   * the order found. A file that cannot be read ends the call with its error.
   */
  method LoadKbTexts(kbBase: Config.Path, files: seq<RelPath>, readText: Config.Path -> Result<string, Error>)
    returns (r: Result<KbTexts, Error>)
    requires Discovered(kbBase, files)
    ensures r.Ok? <==> AllReadable(kbBase, files, readText)
    ensures r.Ok? ==> Describes(kbBase, files, readText, r.value)
    ensures r.Err? ==> FirstUnreadable(kbBase, files, readText, r.error)
  {
    var texts: seq<string> := [];
    var metadatas: seq<Retriever.Metadata> := [];
    var ids: seq<string> := [];
    var i := 0;
    while i < |files|
      invariant i <= |files| && |texts| == i && |metadatas| == i && |ids| == i
      invariant forall k :: 0 <= k < i ==> Entry(kbBase, files[k], readText, texts[k], metadatas[k], ids[k], k)
    {
      var text := readText(FullPath(kbBase, files[i]));
      if text.Err? {
        return Err(text.error);
      }
      texts := texts + [text.value];
      metadatas := metadatas + [MetadataFor(kbBase, files[i])];
      ids := ids + [NatToString(i)];
      i := i + 1;
    }
    return Ok(KbTexts(texts, metadatas, ids));
  }

  /** The ids are distinct: "0", "1", ... up to the number of files less one. */
  lemma IdsDistinct(kbBase: Config.Path, files: seq<RelPath>, readText: Config.Path -> Result<string, Error>,
                    kb: KbTexts)
    requires Discovered(kbBase, files) && Describes(kbBase, files, readText, kb)
    ensures forall i, j :: 0 <= i < j < |kb.ids| ==> kb.ids[i] != kb.ids[j]
  {
    forall i, j | 0 <= i < j < |kb.ids| ensures kb.ids[i] != kb.ids[j] {
      if kb.ids[i] == kb.ids[j] {
        NatToStringInjective(i, j);
      }
    }
  }

  // ---------------------------------------------------------------------------
  // build_chroma_store

  /** What `build_chroma_store` asks of the filesystem, Chroma and the embedding library. */
  datatype StoreEffect =
    | MakeDirs(dir: Config.Path)
    | OpenCollection(dir: Config.Path, name: string, description: string)
    | LoadEmbeddingModel(name: string)
    | Upsert(documents: seq<string>, metadatas: seq<Retriever.Metadata>, ids: seq<string>, embeddings: seq<seq<real>>)

  /** The `description` metadata the collection is created with. */
  const StoreDescription: string := "KB for InsightWeaver supply chain project"

  /** The requests made before the files are read. */
  function Opening(storeDir: Config.Path): seq<StoreEffect> {
    [MakeDirs(storeDir), OpenCollection(storeDir, Retriever.CollectionName, StoreDescription)]
  }

  /** The texts of the files, in the order found. */
  function TextsOf(kbBase: Config.Path, files: seq<RelPath>, readText: Config.Path -> Result<string, Error>)
    : (texts: seq<string>)
    requires AllReadable(kbBase, files, readText)
    ensures |texts| == |files|
    ensures forall i :: 0 <= i < |files| ==> readText(FullPath(kbBase, files[i])) == Ok(texts[i])
  {
    seq(|files|, i requires 0 <= i < |files| => readText(FullPath(kbBase, files[i])).value)
  }

  /**
   * `build_chroma_store()`: the store directory is made and the collection
   * opened (the client and `get_or_create_collection` as one request), the
   * files are read, and unless there are none the embedding model is loaded,
   * the texts are encoded and upserted with their metadata and ids.
   * `outcome` says which requests raise, and `encode` may raise too; the first
   * exception ends the call with its error, after the request that raised it.
   */
  method BuildChromaStore(storeDir: Config.Path, kbBase: Config.Path, files: seq<RelPath>,
                          readText: Config.Path -> Result<string, Error>,
                          encode: (string, seq<string>) -> Result<seq<seq<real>>, Error>,
                          outcome: StoreEffect -> Option<Error>)
    returns (effects: seq<StoreEffect>, failure: Option<Error>)
    requires Discovered(kbBase, files)
    ensures outcome(MakeDirs(storeDir)).Some? ==>
      effects == [MakeDirs(storeDir)] && failure == outcome(MakeDirs(storeDir))
    ensures outcome(MakeDirs(storeDir)).None? && outcome(OpenCollection(storeDir, Retriever.CollectionName, StoreDescription)).Some? ==>
      effects == Opening(storeDir) && failure == outcome(OpenCollection(storeDir, Retriever.CollectionName, StoreDescription))
    // the store is open: the files are read, and a file that cannot be read ends the call
    ensures outcome(MakeDirs(storeDir)).None? && outcome(OpenCollection(storeDir, Retriever.CollectionName, StoreDescription)).None? ==>
      && |effects| >= 2 && effects[..2] == Opening(storeDir)
      && (!AllReadable(kbBase, files, readText) ==>
            effects == Opening(storeDir) && failure.Some? && FirstUnreadable(kbBase, files, readText, failure.value))
      // no files: neither the model is loaded nor anything upserted
      && (files == [] ==> effects == Opening(storeDir) && failure.None?)
    ensures outcome(MakeDirs(storeDir)).None? && outcome(OpenCollection(storeDir, Retriever.CollectionName, StoreDescription)).None?
            && AllReadable(kbBase, files, readText) && files != [] ==>
      var load := LoadEmbeddingModel(Config.EmbeddingModelName);
      && |effects| >= 3 && effects[..3] == Opening(storeDir) + [load]
      && (outcome(load).Some? ==> |effects| == 3 && failure == outcome(load))
      && (outcome(load).None? ==>
            var embedded := encode(Config.EmbeddingModelName, TextsOf(kbBase, files, readText));
            && (embedded.Err? ==> |effects| == 3 && failure == Some(embedded.error))
            && (embedded.Ok? ==>
                  && |effects| == 4 && effects[3].Upsert?
                  && Describes(kbBase, files, readText, KbTexts(effects[3].documents, effects[3].metadatas, effects[3].ids))
                  && effects[3].embeddings == embedded.value
                  && failure == outcome(effects[3])))
  {
    effects := [MakeDirs(storeDir)];
    failure := outcome(MakeDirs(storeDir));
    if failure.Some? {
      return;
    }
    var open := OpenCollection(storeDir, Retriever.CollectionName, StoreDescription);
    effects := effects + [open];
    failure := outcome(open);
    if failure.Some? {
      return;
    }
    var loaded := LoadKbTexts(kbBase, files, readText);
    if loaded.Err? {
      return effects, Some(loaded.error);
    }
    var kb := loaded.value;
    if kb.texts == [] {
      return effects, None;
    }
    var load := LoadEmbeddingModel(Config.EmbeddingModelName);
    effects := effects + [load];
    failure := outcome(load);
    if failure.Some? {
      return;
    }
    assert kb.texts == TextsOf(kbBase, files, readText);
    var embedded := encode(Config.EmbeddingModelName, kb.texts);
    if embedded.Err? {
      return effects, Some(embedded.error);
    }
    var upsert := Upsert(kb.texts, kb.metadatas, kb.ids, embedded.value);
    effects := effects + [upsert];
    failure := outcome(upsert);
  }
}
