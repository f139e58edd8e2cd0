/**
 * The vector service's index state: the loaded store and the map from
 * document position to category id, the indexes saved on disk, and the four
 * operations that change or read them (build from a TSV file, load, delete,
 * is-loaded) plus the search guard and score conversion.
 *
 * The approximate-nearest-neighbour store is opaque: a `Store` records the
 * documents and vectors it was built from, and a search is an oracle that
 * returns `(id, distance)` pairs. The disk is a map from index name to what
 * was saved under it; `id_map.json` is held as its JSON object entries.
 */
module VectorIndex {
  import opened Wrappers
  import opened Seqs
  import opened Text
  import opened TsvFormat
  import opened Embedding

  /** The documents of an index and the vectors added for them, position by position. */
  datatype Store = Store(docs: seq<Category>, vectors: seq<Vector>)

  /**
   * A key of the loaded id map: what `parseInt` made of an object key. A key
   * that is not a number becomes `NaN`, which a JavaScript `Map` keeps as a key.
   */
  datatype Key = Num(value: int) | NaN

  /** The entries of a JSON object, in the order `Object.entries` lists them. */
  type JsonObject = seq<(string, string)>

  /** One saved index directory: the store files and, when present, `id_map.json`. */
  datatype Saved = Saved(store: Store, idMap: Option<JsonObject>)

  /** The module-level variables and the saved indexes. */
  datatype State = State(store: Option<Store>, idMap: map<Key, string>, disk: map<string, Saved>)

  datatype IndexError =
    | TsvMissing(path: string)
    | EmbeddingFailed(cause: EmbedError)
    | IndexMissing(name: string)
    | NotLoaded
    | NoQueryVector

  /** How an operation ends: normally, or by throwing. */
  datatype Outcome = Done | Thrown(error: IndexError)

  /** The batch size the build passes to `createEmbeddingBatch`. */
  const BuildBatchSize := 100

  // ---- The id map and its JSON form ---------------------------------------

  /** `categoryIdMap` after the build: position `i` maps to the id of category `i`. */
  function IdMap(cats: seq<Category>): (m: map<Key, string>)
  {
    map i | 0 <= i < |cats| :: Num(i) := cats[i].id
  }

  /** `Object.fromEntries(categoryIdMap)` for that map: keys `"0"`, `"1"`, ... in order. */
  function Encode(cats: seq<Category>): (o: JsonObject)
    ensures |o| == |cats|
  {
    if cats == [] then []
    else Encode(cats[..|cats| - 1]) + [(IntToString(|cats| - 1), cats[|cats| - 1].id)]
  }

  /** What `parseInt` makes of an object key. */
  function KeyOf(k: string): Key {
    match ParseInt(k)
    case Some(v) => Num(v)
    case None => NaN
  }

  /** `new Map(entries.map(([k, v]) => [parseInt(k), v]))`: later entries override earlier ones. */
  function Decode(o: JsonObject): map<Key, string>
  {
    if o == [] then map[]
    else Decode(o[..|o| - 1])[KeyOf(o[|o| - 1].0) := o[|o| - 1].1]
  }

  /** The key set of the built map is exactly the positions `0 .. n - 1`. */
  lemma IdMapKeys(cats: seq<Category>)
    ensures forall k :: k in IdMap(cats) <==> k.Num? && 0 <= k.value < |cats|
    ensures forall i :: 0 <= i < |cats| ==> IdMap(cats)[Num(i)] == cats[i].id
  {
  }

  /** Adding category `n` adds exactly the key `n`. */
  lemma IdMapSnoc(cats: seq<Category>, n: nat)
    requires n < |cats|
    ensures IdMap(cats[..n + 1]) == IdMap(cats[..n])[Num(n) := cats[n].id]
  {
    var a := IdMap(cats[..n + 1]);
    var b := IdMap(cats[..n])[Num(n) := cats[n].id];
    forall k
      ensures k in a <==> k in b
    {
    }
    forall k | k in a
      ensures a[k] == b[k]
    {
    }
  }

  /** Reading back what the build writes gives the map the build made. */
  lemma {:induction false} DecodeEncode(cats: seq<Category>)
    ensures Decode(Encode(cats)) == IdMap(cats)
    decreases |cats|
  {
    if cats != [] {
      var n := |cats| - 1;
      var init := cats[..n];
      var o := Encode(cats);
      SnocInit(Encode(init), (IntToString(n), cats[n].id));
      DecodeEncode(init);
      ParseIntRoundTrip(n);
      assert KeyOf(IntToString(n)) == Num(n);
      assert cats[..n + 1] == cats;
      IdMapSnoc(cats, n);
    }
  }

  // ---- The operations as steps of the state --------------------------------

  /** `categories.map(c => c.text)`. */
  function Texts(cats: seq<Category>): (ts: seq<string>)
    ensures |ts| == |cats|
  {
    seq(|cats|, i requires 0 <= i < |cats| => cats[i].text)
  }

  /**
   * `buildIndexFromTSV(tsvPath, name)`: a missing file or a failed embedding
   * call throws and changes nothing; otherwise the new store holds the parsed
   * categories with their vectors, the id map is rebuilt, and both are saved
   * under `name`.
   */
  function BuildStep(s: State, tsvPath: string, name: string, files: map<string, string>, remote: Remote): (State, Outcome)
  {
    if tsvPath !in files then (s, Thrown(TsvMissing(tsvPath)))
    else
      var cats := ParsedCategories(files[tsvPath]);
      match EmbedAll(Batches(Texts(cats), BuildBatchSize), remote)
      case Failure(e) => (s, Thrown(EmbeddingFailed(e)))
      case Success(vs) =>
        var store := Store(cats, vs);
        (State(Some(store), IdMap(cats), s.disk[name := Saved(store, Some(Encode(cats)))]), Done)
  }

  /**
   * `loadIndex(name)`: a missing index throws and changes nothing; otherwise
   * the saved store is loaded, and the id map is replaced only when
   * `id_map.json` is present.
   */
  function LoadStep(s: State, name: string): (State, Outcome)
  {
    if name !in s.disk then (s, Thrown(IndexMissing(name)))
    else
      var saved := s.disk[name];
      var idMap := if saved.idMap.Some? then Decode(saved.idMap.value) else s.idMap;
      (State(Some(saved.store), idMap, s.disk), Done)
  }

  /** `deleteIndex(name)`: the saved index goes; a loaded store is dropped and the id map cleared. */
  function DeleteStep(s: State, name: string): State
  {
    var disk := if name in s.disk then s.disk - {name} else s.disk;
    if s.store.Some? then State(None, map[], disk) else State(s.store, s.idMap, disk)
  }

  /** `isIndexLoaded()`. */
  predicate IsIndexLoaded(s: State) {
    s.store.Some?
  }

  // ---- Search ----------------------------------------------------------------

  /** What the store's nearest-neighbour search returns for one document. */
  datatype Hit = Hit(id: string, distance: real)

  /** One entry of `searchTopK`'s result. */
  datatype SearchResult = SearchResult(id: string, score: real)

  /** The store's search: the store, the query vector and `k` give the hits. */
  type SearchOracle = (Store, Vector, int) -> seq<Hit>

  /** The result map of `searchTopK`: each hit's id with the similarity `1 - distance`. */
  function Scores(hits: seq<Hit>): (rs: seq<SearchResult>)
  {
    seq(|hits|, i requires 0 <= i < |hits| => SearchResult(hits[i].id, 1.0 - hits[i].distance))
  }

  /**
   * `searchTopK(text, k)`: throws when no store is loaded, before any remote
   * call; otherwise embeds the text and converts the store's hits.
   */
  function SearchTopK(s: State, text: string, k: int, remote: Remote, search: SearchOracle): (r: Result<seq<SearchResult>, IndexError>)
    ensures s.store.Some? && remote([text]).NotOk? ==>
      r == Failure(EmbeddingFailed(ApiError(remote([text]).status, remote([text]).body)))
    ensures r.Success? <==> s.store.Some? && remote([text]).Ok? && remote([text]).data != []
    ensures r.Success? ==>
      var hits := search(s.store.value, remote([text]).data[0].embedding, k);
      && |r.value| == |hits|
      && forall i :: 0 <= i < |hits| ==> r.value[i] == SearchResult(hits[i].id, 1.0 - hits[i].distance)
  {
    if s.store.None? then Failure(NotLoaded)
    else
      match CreateEmbedding([text], remote)
      case Failure(e) => Failure(EmbeddingFailed(e))
      case Success(data) =>
        if data == [] then Failure(NoQueryVector)
        else Success(Scores(search(s.store.value, data[0].embedding, k)))
  }

  // ---- The module as an object --------------------------------------------

  /** The module-level `vectorStore` and `categoryIdMap`, and the index directory. */
  class IndexModule {
    var vectorStore: Option<Store>
    var categoryIdMap: map<Key, string>
    var disk: map<string, Saved>

    /** The module as it is on load: nothing loaded, an empty map, whatever is on disk. */
    constructor(saved: map<string, Saved>)
      ensures vectorStore == None && categoryIdMap == map[] && disk == saved
    {
      vectorStore := None;
      categoryIdMap := map[];
      disk := saved;
    }

    function Snapshot(): State
      reads this
    {
      State(vectorStore, categoryIdMap, disk)
    }

    method BuildIndexFromTsv(tsvPath: string, name: string, files: map<string, string>, remote: Remote)
      returns (outcome: Outcome)
      modifies this
      ensures (Snapshot(), outcome) == BuildStep(old(Snapshot()), tsvPath, name, files, remote)
    {
      if tsvPath !in files {
        return Thrown(TsvMissing(tsvPath));
      }
      var categories := ParseTSV(files[tsvPath]);
      var texts := Texts(categories);
      var embeddings, _ := CreateEmbeddingBatch(texts, BuildBatchSize, remote);
      if embeddings.Failure? {
        return Thrown(EmbeddingFailed(embeddings.error));
      }
      var store := Store(categories, embeddings.value);
      vectorStore := Some(store);
      categoryIdMap := map[];
      for i := 0 to |categories|
        invariant categoryIdMap == IdMap(categories[..i])
        invariant vectorStore == Some(store) && disk == old(disk)
      {
        IdMapSnoc(categories, i);
        categoryIdMap := categoryIdMap[Num(i) := categories[i].id];
      }
      assert categories[..|categories|] == categories;
      disk := disk[name := Saved(store, Some(Encode(categories)))];
      return Done;
    }

    method LoadIndex(name: string) returns (outcome: Outcome)
      modifies this
      ensures (Snapshot(), outcome) == LoadStep(old(Snapshot()), name)
    {
      if name !in disk {
        return Thrown(IndexMissing(name));
      }
      vectorStore := Some(disk[name].store);
      if disk[name].idMap.Some? {
        categoryIdMap := Decode(disk[name].idMap.value);
      }
      return Done;
    }

    method DeleteIndex(name: string)
      modifies this
      ensures Snapshot() == DeleteStep(old(Snapshot()), name)
    {
      if name in disk {
        disk := disk - {name};
      }
      if vectorStore.Some? {
        vectorStore := None;
        categoryIdMap := map[];
      }
    }
  }

  // ---- Properties of the lifecycle -----------------------------------------

  /** A failed build changes nothing; a successful one loads the parsed categories. */
  lemma BuildOutcome(s: State, tsvPath: string, name: string, files: map<string, string>, remote: Remote)
    ensures var (s', out) := BuildStep(s, tsvPath, name, files, remote);
      out.Thrown? ==> s' == s
    ensures var (s', out) := BuildStep(s, tsvPath, name, files, remote);
      out.Done? <==> tsvPath in files && EmbedAll(Batches(Texts(ParsedCategories(files[tsvPath])), BuildBatchSize), remote).Success?
    ensures var (s', out) := BuildStep(s, tsvPath, name, files, remote);
      out.Done? ==> IsIndexLoaded(s') && s'.store.value.docs == ParsedCategories(files[tsvPath])
  {
  }

  /** After a build the id map has exactly the keys `0 .. n - 1`, key `i` holding category `i`'s id. */
  lemma BuildIdMap(s: State, tsvPath: string, name: string, files: map<string, string>, remote: Remote)
    requires BuildStep(s, tsvPath, name, files, remote).1.Done?
    ensures var s' := BuildStep(s, tsvPath, name, files, remote).0;
      var cats := s'.store.value.docs;
      && (forall k :: k in s'.idMap <==> k.Num? && 0 <= k.value < |cats|)
      && (forall i :: 0 <= i < |cats| ==> s'.idMap[Num(i)] == cats[i].id)
  {
    var cats := ParsedCategories(files[tsvPath]);
    IdMapKeys(cats);
  }

  /**
   * Position `j` of the built store holds the embedding of category `j`'s
   * text, when every remote response is faithful to an embedding function `f`.
   */
  lemma BuildVectors(s: State, tsvPath: string, name: string, files: map<string, string>, remote: Remote, f: string -> Vector)
    requires tsvPath in files
    requires var texts := Texts(ParsedCategories(files[tsvPath]));
      forall k :: 0 <= k < |Batches(texts, BuildBatchSize)| ==>
        remote(Batches(texts, BuildBatchSize)[k]).Ok? &&
        Faithful(Batches(texts, BuildBatchSize)[k], remote(Batches(texts, BuildBatchSize)[k]).data, f)
    ensures var (s', out) := BuildStep(s, tsvPath, name, files, remote);
      && out.Done?
      && |s'.store.value.vectors| == |s'.store.value.docs|
      && forall j :: 0 <= j < |s'.store.value.docs| ==> s'.store.value.vectors[j] == f(s'.store.value.docs[j].text)
  {
    var cats := ParsedCategories(files[tsvPath]);
    Reassembly(Texts(cats), BuildBatchSize, remote, f);
  }

  /** Loading the index right after building it restores the same store and id map. */
  lemma BuildThenLoad(s: State, tsvPath: string, name: string, files: map<string, string>, remote: Remote)
    requires BuildStep(s, tsvPath, name, files, remote).1.Done?
    ensures var s' := BuildStep(s, tsvPath, name, files, remote).0;
      LoadStep(s', name) == (s', Done)
  {
    var cats := ParsedCategories(files[tsvPath]);
    DecodeEncode(cats);
  }

  /** Loading a missing index throws before anything changes. */
  lemma LoadMissing(s: State, name: string)
    requires name !in s.disk
    ensures LoadStep(s, name) == (s, Thrown(IndexMissing(name)))
  {
  }

  /** Loading an index saved without `id_map.json` loads its store and keeps the previous id map. */
  lemma LoadKeepsMap(s: State, name: string)
    requires name in s.disk && s.disk[name].idMap.None?
    ensures var (s', out) := LoadStep(s, name);
      out == Done && s'.store == Some(s.disk[name].store) && s'.idMap == s.idMap && s'.disk == s.disk
  {
  }

  /** After a delete nothing is loaded and nothing is saved under that name. */
  lemma DeleteUnloads(s: State, name: string)
    ensures !IsIndexLoaded(DeleteStep(s, name)) && name !in DeleteStep(s, name).disk
    ensures DeleteStep(s, name).disk == s.disk - {name}
    ensures forall n :: n != name ==> (n in DeleteStep(s, name).disk <==> n in s.disk)
  {
  }

  /** The id map is cleared exactly when a store was loaded. */
  lemma DeleteClearsMap(s: State, name: string)
    ensures IsIndexLoaded(s) ==> DeleteStep(s, name).idMap == map[]
    ensures !IsIndexLoaded(s) ==> DeleteStep(s, name).idMap == s.idMap
  {
  }

  /** Deleting twice is deleting once. */
  lemma DeleteIdempotent(s: State, name: string)
    ensures DeleteStep(DeleteStep(s, name), name) == DeleteStep(s, name)
  {
  }

  /**
   * `isIndexLoaded()` across the lifecycle: true after a build or a load that
   * returns, unchanged by one that throws, false after a delete.
   */
  lemma LoadedFlag(s: State, tsvPath: string, name: string, files: map<string, string>, remote: Remote)
    ensures var (s', out) := BuildStep(s, tsvPath, name, files, remote);
      IsIndexLoaded(s') <==> out.Done? || IsIndexLoaded(s)
    ensures var (s', out) := LoadStep(s, name);
      IsIndexLoaded(s') <==> out.Done? || IsIndexLoaded(s)
    ensures (LoadStep(s, name).1.Done? <==> name in s.disk)
    ensures !IsIndexLoaded(DeleteStep(s, name))
  {
  }

  /** Searching without a loaded store throws, whatever the remote and the store would answer. */
  lemma SearchNeedsStore(s: State, text: string, k: int, remote: Remote, search: SearchOracle)
    ensures !IsIndexLoaded(s) <==> SearchTopK(s, text, k, remote, search) == Failure(NotLoaded)
  {
  }

  /** Each result keeps its hit's id and scores `1 - distance`, so closer hits score higher. */
  lemma ScoresFollowDistance(hits: seq<Hit>)
    ensures |Scores(hits)| == |hits|
    ensures forall i :: 0 <= i < |hits| ==> Scores(hits)[i].id == hits[i].id && Scores(hits)[i].score + hits[i].distance == 1.0
    ensures forall i, j :: 0 <= i < |hits| && 0 <= j < |hits| ==>
      (hits[i].distance <= hits[j].distance <==> Scores(hits)[i].score >= Scores(hits)[j].score)
  {
  }

  /** After a delete, a search throws. */
  lemma SearchAfterDelete(s: State, name: string, text: string, k: int, remote: Remote, search: SearchOracle)
    ensures SearchTopK(DeleteStep(s, name), text, k, remote, search) == Failure(NotLoaded)
  {
  }
}
