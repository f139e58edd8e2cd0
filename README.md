# Category matching service: verified model

This project models the core of a service that maps free-text product descriptions
to marketplace taxonomy categories (Shopify, Ozon, Yandex) by vector similarity.
The model covers:

- **TSV format** (module `TsvFormat`, `tsv.dfy`). This is `parseTSV` of the vector
  service and the `id<TAB>text` writer shared by the conversion scripts. The model
  proves the round trip between the two.
- **Batch embedding** (module `Embedding`, `embedding.dfy`). This is
  `createEmbeddingBatch`: the texts are cut into slices of `batchSize`, one remote call
  is made per slice, each answer is sorted by `index`, and the results are
  concatenated. The remote embedding API is an oracle `seq<string> -> Response`. The
  model proves that output position `j` is the embedding of input text `j`.
- **Vector index state** (module `VectorIndex`, `vector_index.dfy`). This is the single
  global `vectorStore` / `categoryIdMap` pair and its operations: build from a TSV
  file, load, delete and is-loaded, plus the not-loaded guard and the
  distance-to-score conversion of `searchTopK`. It also covers the JSON round trip of
  the id map through `Object.fromEntries` and `parseInt` keys. The HNSW store is
  opaque: a `Store` records the documents and vectors it was built from. The file
  system is a map from index name to what was saved under it.
- **Taxonomy conversion** (module `Taxonomy`, `taxonomy.dfy`). These are the Ozon and
  Yandex pre-order flattenings (paths joined with `" > "`), their skipping rules, and
  the TSV writing loops of `convert_ozon_to_tsv` / `convert_yandex_to_tsv`.
- **Shopify conversion** (module `ShopifyConvert`, `shopify.dfy`). This is the
  per-line loop of `convert_shopify_tsv`: blank lines, comment lines, and a
  hand-written matcher for `^(gid://[^\s]+)\s+:\s+(.+)$`, with its converted and
  skipped counters.
- **HTTP handlers** (module `Resolvers`, `resolvers.dfy`). These are
  `validatePlatform`, and the check order and status mapping of `queryCategory`,
  `buildIndex`, `loadCategoryIndex` and `deleteCategoryIndex`. The handlers call an
  abstract per-platform registry. The model sees the registry only through the calls
  made on it and through the set of resident platforms. Whether a load, build, search
  or delete throws is a parameter of each handler.

Shared modules:

- `Wrappers` holds `Option` and `Result`.
- `Seqs` holds sequence lemmas.
- `Arith` holds division facts.
- `Text` provides the string functions the source relies on:
  - whitespace, `trim`, `rstrip`;
  - `split` / `join` on one character, `indexOf`;
  - `String(i)` / `str(i)`, `parseInt`.

Where the code does something stateful, the model keeps that form:

- `ParseTSV`, `CreateEmbeddingBatch`, the TSV writing loops and `ConvertShopifyTsv` are
  methods with loops. Each is proved equal to a specification function.
- `IndexModule` (vector index) and `Registry` (handlers) are classes whose methods
  update their fields.
- The recursive flattenings and the line classifier are functions.

Inputs the source reads from the outside world become parameters:

- the content of a file;
- the list of lines of a file;
- whether a file exists (an `Option`);
- the parsed JSON value;
- the remote API;
- the HNSW search.

## Model

| member | source | states |
|---|---|---|
| TsvFormat.ParseTSV | src/lib/vector/index.ts:31-52 | The loop returns exactly the specification `ParsedCategories(content)` (trim, split on `\n`, skip line 0, keep the rows `ParseLine` accepts, in order), and every row it returns can be written back as one TSV line |
| TsvFormat.ParseLine | src/lib/vector/index.ts:37-48 | A row that is kept has a non-empty, trimmed id without a tab and a non-empty, trimmed text |
| TsvFormat.SkippedLines | src/lib/vector/index.ts:38-41 | A blank line and a line whose trimmed form has no tab give no row |
| TsvFormat.DroppedEmptyId | src/lib/vector/index.ts:37-46 | `"\tbaz"` is dropped: the line is trimmed before the tab search, which removes its only tab |
| TsvFormat.DroppedEmptyText | src/lib/vector/index.ts:37-46 | `"A\t"` is dropped: the trimmed line has no tab |
| TsvFormat.DroppedNoTab | src/lib/vector/index.ts:40-41 | A line without a tab is dropped |
| TsvFormat.DroppedBlank | src/lib/vector/index.ts:37-38 | A line of spaces is dropped |
| TsvFormat.ParsedBound | src/lib/vector/index.ts:32-36 | At most one row per line after the first: no more rows than the pieces of `content.trim().split('\n')` minus one, nor than the pieces of `content.split('\n')` minus one |
| TsvFormat.EmptyContent | src/lib/vector/index.ts:32-36 | Content made only of whitespace yields no categories |
| TsvFormat.HeaderIgnored | src/lib/vector/index.ts:35-36 | The first line is never parsed: two files differing only in a non-blank header give the same categories |
| TsvFormat.ParsedAfterHeader | src/lib/vector/index.ts:32-36 | After a header line, the categories are the rows of the lines of the trailing-trimmed body, or none when the body is blank |
| TsvFormat.RowsAppend | src/lib/vector/index.ts:36-49 | Rows of concatenated line lists are the concatenation of their rows: file order is kept |
| TsvFormat.RowsWellFormed | src/lib/vector/index.ts:43-47 | Every row parsed from newline-free lines is writable |
| TsvFormat.ParsedWritable | src/lib/vector/index.ts:31-52 | Every category `parseTSV` returns is writable as a TSV line |
| TsvFormat.LineRoundTrip | src/lib/vector/index.ts:37-48 | A well-formed category written as `id\ttext` parses back to itself |
| TsvFormat.ReadWritten | scripts/convert_json_to_tsv.py:102-108 | A header line plus one `id\ttext\n` line per writable category parses back to exactly those categories |
| Embedding.CreateEmbedding | src/lib/openai/index.ts:33-54 | Succeeds iff the response is ok, giving its data; otherwise the error carries the status and body text |
| Embedding.OneBatch | src/lib/openai/index.ts:62-80 | Up to `batchSize` texts make exactly one `createEmbedding` call, whose error is the batch run's error and whose items sorted by `index` are its vectors |
| Embedding.BatchSizes | src/lib/openai/index.ts:68-69 | Every batch is non-empty and holds at most `batchSize` texts |
| Embedding.BatchesCover | src/lib/openai/index.ts:68-69 | The batches concatenate to the input texts |
| Embedding.BatchAt | src/lib/openai/index.ts:68-69 | Batch `k` is `texts[k*b .. min((k+1)*b, n)]` |
| Embedding.BatchCount | src/lib/openai/index.ts:68 | There are `ceil(n / b)` batches |
| Embedding.SortSorts | src/lib/openai/index.ts:73 | Sorting by `index` gives an ordered permutation of the answer's items |
| Embedding.CreateEmbeddingBatch | src/lib/openai/index.ts:62-80 | The loop's result and the batches it sent equal `EmbedAll` / `CallsMade` over the batches; no texts means no call and an empty result |
| Embedding.SortFaithful | src/lib/openai/index.ts:73-74 | If an answer holds, for each position of the batch exactly once, the embedding of the text at that position, the sorted vectors are the batch's embeddings in order |
| Embedding.Reassembly | src/lib/openai/index.ts:62-80 | If every batch answer is faithful, output position `j` is the embedding of text `j` |
| Embedding.EmbedAllFails | src/lib/openai/index.ts:70 | The batch run fails iff some batch's remote call fails |
| Embedding.FirstFailure | src/lib/openai/index.ts:68-77 | The first failing batch's error is the result, and no batch after it is sent |
| Embedding.AllCallsMade | src/lib/openai/index.ts:68-77 | When every call succeeds, every batch is sent, in order |
| Embedding.NoTexts | src/lib/openai/index.ts:68 | No texts: no batches, empty result |
| VectorIndex.IdMapKeys | src/lib/vector/index.ts:93-96 | The id map built from `n` categories has exactly keys `0..n-1`, key `i` holding category `i`'s id |
| VectorIndex.DecodeEncode | src/lib/vector/index.ts:107-131 | Writing the id map as a JSON object and reading it back with `parseInt` keys gives the same map |
| VectorIndex.IndexModule.BuildIndexFromTsv | src/lib/vector/index.ts:59-110 | The new state and outcome are those of `BuildStep` on the old state |
| VectorIndex.IndexModule.LoadIndex | src/lib/vector/index.ts:116-135 | The new state and outcome are those of `LoadStep` on the old state |
| VectorIndex.IndexModule.DeleteIndex | src/lib/vector/index.ts:173-184 | The new state is that of `DeleteStep` on the old state |
| VectorIndex.IndexModule.constructor | src/lib/vector/index.ts:24-25 | The module starts with no store and an empty id map |
| VectorIndex.BuildOutcome | src/lib/vector/index.ts:59-110 | A build that throws reading the TSV file or embedding changes nothing; a build succeeds iff the TSV file exists and every embedding batch of 100 succeeds, and then the store holds the parsed categories |
| VectorIndex.BuildIdMap | src/lib/vector/index.ts:93-96 | After a build the id map is fresh, with keys `0..n-1` mapping to the stored categories' ids |
| VectorIndex.BuildVectors | src/lib/vector/index.ts:64-90 | With faithful embedding answers, the build succeeds with one vector per document, vector `j` being the embedding of document `j`'s text |
| VectorIndex.BuildThenLoad | src/lib/vector/index.ts:103-132 | Loading the index just built restores exactly the built state |
| VectorIndex.LoadMissing | src/lib/vector/index.ts:119-121 | Loading a missing index throws and changes nothing |
| VectorIndex.LoadKeepsMap | src/lib/vector/index.ts:125-132 | Without `id_map.json`, loading replaces the store and keeps the previous id map |
| VectorIndex.DeleteUnloads | src/lib/vector/index.ts:173-184 | After delete nothing is loaded and the disk is the old disk without that index |
| VectorIndex.DeleteClearsMap | src/lib/vector/index.ts:180-183 | Delete clears the id map only when a store was loaded |
| VectorIndex.DeleteIdempotent | src/lib/vector/index.ts:173-184 | Deleting twice is deleting once |
| VectorIndex.SearchTopK | src/lib/vector/index.ts:143-160 | With a store loaded, a failed query embedding is the result's error; the search succeeds iff a store is loaded and the embedding answer is ok with data, and then gives one result per hit, with its id and `1 - distance` |
| VectorIndex.LoadedFlag | src/lib/vector/index.ts:165-167 | `isIndexLoaded` is true after a build or load that returns, unchanged by one that throws, and false after a delete |
| VectorIndex.SearchNeedsStore | src/lib/vector/index.ts:143-146 | Search fails with not-loaded iff no store is loaded |
| VectorIndex.ScoresFollowDistance | src/lib/vector/index.ts:156-159 | One result per hit, same id, `score = 1 - distance`, so a closer hit scores higher |
| VectorIndex.SearchAfterDelete | src/lib/vector/index.ts:180-183 | After a delete, search fails with not-loaded |
| Taxonomy.OzonAppend | scripts/convert_json_to_tsv.py:21-50 | Flattening a concatenation is flattening each part in order |
| Taxonomy.OzonSkipsKeyless | scripts/convert_json_to_tsv.py:23-30 | An item with neither id key is skipped |
| Taxonomy.OzonSkipsDisabled | scripts/convert_json_to_tsv.py:32-34 | A disabled item is skipped together with its subtree |
| Taxonomy.OzonMissingName | scripts/convert_json_to_tsv.py:23-28 | An id without its name key is a `KeyError` |
| Taxonomy.OzonPreOrder | scripts/convert_json_to_tsv.py:23-48 | An item emits its own entry first, then its children's; the children are flattened under its path, or under the empty path when the item is at the top level with a falsy name; `description_category_id` takes precedence over `type_id` |
| Taxonomy.ChildPath | scripts/convert_json_to_tsv.py:37-48 | At the top level a falsy name hands its children the empty path; otherwise they get the joined path |
| Taxonomy.OzonNullTopName | scripts/convert_json_to_tsv.py:37-48 | A top-level category named `null` is written as `None` and its child under its bare name |
| Taxonomy.OzonPaths | scripts/convert_json_to_tsv.py:37-48 | Below a parent, every path starts with `parent > ` |
| Taxonomy.OzonBound | scripts/convert_json_to_tsv.py:11-50 | At most one entry per item in the tree |
| Taxonomy.YandexDropped | scripts/convert_json_to_tsv.py:64-68 | A non-object node, or one with a falsy id or name, emits nothing, children included |
| Taxonomy.YandexPreOrder | scripts/convert_json_to_tsv.py:64-81 | A node emits its entry first, then each child's entries in order under its path |
| Taxonomy.YandexAppend | scripts/convert_json_to_tsv.py:125-128 | Flattening a list of nodes is concatenating their flattenings |
| Taxonomy.YandexPaths | scripts/convert_json_to_tsv.py:70-81 | Below a parent, every path starts with `parent > ` |
| Taxonomy.YandexBound | scripts/convert_json_to_tsv.py:53-83 | At most one entry per node |
| Taxonomy.WriteRows | scripts/convert_json_to_tsv.py:102-108 | The loop writes the header and then one line per entry: exactly `TsvText` of the entries |
| Taxonomy.ConvertOzonToTsv | scripts/convert_json_to_tsv.py:86-111 | A flattening error is the result; otherwise the TSV text of the entries flattened from the empty path, with the falsy-name rule of `ChildPath`, and their count |
| Taxonomy.ConvertYandexToTsv | scripts/convert_json_to_tsv.py:114-142 | The root is skipped and its children flattened in order; a non-object result is an error |
| Taxonomy.ConvertedReadsBack | scripts/convert_json_to_tsv.py:102-108 | Written rows that are writable parse back to the same categories, one per entry |
| ShopifyConvert.MatchLineSound | scripts/convert_tsv.py:59-62 | A match found by the matcher has the regex's shape, with group 1 the `gid://` run and group 2 the rest after the separator spaces |
| ShopifyConvert.MatchLineComplete | scripts/convert_tsv.py:59-62 | Every way of matching the regex is found, with the same group 1 and the same stripped group 2 |
| ShopifyConvert.MatchLineIff | scripts/convert_tsv.py:36-59 | For a line without a trailing newline, the matcher succeeds iff the line matches the regex |
| ShopifyConvert.ConvertShopifyTsv | scripts/convert_tsv.py:19-74 | A missing input exits with status 1; otherwise the output is the header plus the converted rows, with the converted and skipped counts |
| ShopifyConvert.BlankIffSpace | scripts/convert_tsv.py:48-52 | A line is ignored as blank iff it is all whitespace |
| ShopifyConvert.CommentSkipped | scripts/convert_tsv.py:54-57 | A line whose stripped form starts with `#` is a skipped comment |
| ShopifyConvert.CountsAddUp | scripts/convert_tsv.py:38-69 | Converted plus skipped equals the number of non-blank lines |
| ShopifyConvert.RowFromMatch | scripts/convert_tsv.py:59-62 | A converted row's id starts with `gid://` and has no whitespace, and its text is stripped |
| ShopifyConvert.RowWritable | scripts/convert_tsv.py:61-65 | A converted row with non-empty text is a valid TSV line |
| ShopifyConvert.ConvertedReadsBack | scripts/convert_tsv.py:45-66 | If no row has empty text, the vector service's parser reads the output file back as exactly the converted rows |
| ShopifyConvert.WhitespaceText | scripts/convert_tsv.py:59-62 | `"gid://x :  "` is converted to a row with an empty text |
| Resolvers.ValidatePlatformIff | src/routes/resolvers.ts:17-19 | A platform is valid iff it is one of the supported platform strings |
| Resolvers.NullPlatformRejected | src/routes/resolvers.ts:28-37 | A `null` platform gets no default and is rejected |
| Resolvers.NumberOfDecimal | src/routes/resolvers.ts:56 | `Number` of a decimal string is the integer it spells |
| Resolvers.NumberOfBlank | src/routes/resolvers.ts:56 | `Number` of a blank string is 0 |
| Resolvers.Registry.constructor | src/index.ts:20-31 | The registry starts with no resident platform and no calls: the server starts listening without loading any index |
| Resolvers.QueryCategory | src/routes/resolvers.ts:26-70 | The reply and the registry's new state are `QueryOutcome` of the old state |
| Resolvers.BuildIndex | src/routes/resolvers.ts:77-104 | The reply and new state are `BuildOutcome` of the old state |
| Resolvers.LoadCategoryIndex | src/routes/resolvers.ts:111-136 | The reply and new state are `LoadOutcome` of the old state |
| Resolvers.DeleteCategoryIndex | src/routes/resolvers.ts:143-168 | The reply and new state are `DeleteOutcome` of the old state |
| Resolvers.TextCheckedFirst | src/routes/resolvers.ts:30-35 | A missing, empty or non-string text gives 400 before any platform check or registry call |
| Resolvers.UnsupportedRejected | src/routes/resolvers.ts:37-152 | An unsupported platform gives 400, with the registry untouched, in all four handlers |
| Resolvers.OneLoadAttempt | src/routes/resolvers.ts:45-54 | A valid query first asks whether the index is resident, then makes exactly one load attempt if it is not and none if it is |
| Resolvers.LoadFailureUnavailable | src/routes/resolvers.ts:45-54 | A failed lazy load gives 503, no search, and no change to what is resident |
| Resolvers.SearchOnResidentIndex | src/routes/resolvers.ts:45-56 | The search is the last call and goes to a resident platform |
| Resolvers.QuerySucceedsIff | src/routes/resolvers.ts:26-62 | Success iff the text and platform are valid, the index is resident or loads, and the search returns; the reply then carries that platform and that list |
| Resolvers.QueryStatuses | src/routes/resolvers.ts:30-69 | Status is 200, 400, 500 or 503: 400 iff the request is invalid, 503 iff the lazy load fails, 500 iff the search throws, with its message or the fallback |
| Resolvers.QueryDefaults | src/routes/resolvers.ts:28-56 | With no platform and no `k`, the search is for `shopify` with `k = 5` |
| Resolvers.BuildResults | src/routes/resolvers.ts:88-103 | The build reads the platform's TSV path once; success iff it returns, leaving the platform resident; a throw gives 500 with its message or the fallback |
| Resolvers.LoadResults | src/routes/resolvers.ts:122-135 | The load is called even when resident; a load error is 500, not a distinct not-found |
| Resolvers.DeleteResults | src/routes/resolvers.ts:154-167 | Delete succeeds unless it throws, and then the platform is not resident |
| Resolvers.QueryAfterLoad | src/routes/resolvers.ts:45-56 | After a successful load request, a query makes no load call and reaches the search |
| Resolvers.QueryAfterDelete | src/routes/resolvers.ts:45-47 | After a successful delete request, a query attempts a load again |
| Resolvers.HealthFollowsRegistry | src/routes/resolvers.ts:174-180 | `/health` lists the supported platforms, and a platform is listed as loaded after a build and not after a delete |
| Resolvers.HealthCheck | src/routes/resolvers.ts:174-180 | `/health` answers `ok`, the supported platform list and exactly the registry's loaded platforms |
| Resolvers.HealthChangesOnePlatform | src/routes/resolvers.ts:174-180 | A build or delete request changes the loaded list at most for its own platform, and a rejected or throwing one changes nothing |

## Left out

- **The network and file I/O.**
  - The embedding API, `fs` and the HNSW library appear only as oracles or as parameters.
  - So there are no timeouts, no proxy handling and no `console` logging.
  - The scripts' `main()` functions and the build-all script are not modelled.
- **The HNSW store.** `Store` only records the documents and vectors given to it.
  - Approximate search is an oracle that returns `(id, distance)` pairs.
  - `HNSWLib.save` / `load` are modelled as storing and returning the `Store` value.
  - A failure of `rmSync` in `deleteIndex` is not modelled.
  - The `addVectors` loop at src/lib/vector/index.ts:88-90 adds each document a second time: `fromDocuments` has already added it with a fake vector, and the loop adds it again with its real one. The model records the real vectors only.
- VectorIndex.BuildOutcome: failures of `mkdirSync`, `vectorStore.save` or `writeFileSync` (src/lib/vector/index.ts:100-107) are not modelled. In the source they throw after `vectorStore` and `categoryIdMap` were reassigned (lines 85-96), so the new store and id map stay resident while the disk is stale or partly written. The model's "a build that throws changes nothing" covers only the TSV read and the embedding calls.
- **`JSON.parse` of a malformed `id_map.json`.** It is not modelled, because the file is always the one the build wrote.
  - The id map's JSON text is treated as a lossless carrier of its entries.
- **JSON values in the conversion scripts.** They are restricted to null, booleans, integers and strings.
  - Floats, lists and nested objects used as ids or names are not modelled.
  - `json.load` errors are not modelled either.
- **`createEmbedding`'s input.** The model takes a list of strings. `searchTopK`'s single string is passed as a one-element list.
  - `response.data[0]` on an empty answer is the `NoQueryVector` error.
- **Embedding.CreateEmbeddingBatch** requires `batchSize > 0` when there are texts.
  - With `batchSize <= 0` and texts present, the source loop never ends.
  - Fractional batch sizes are not modelled.
- **The sort of the embedding answer.** It is modelled as a pure stable insertion sort by `index`, not `Array.prototype.sort` in place.
  - No claim is made about the relative order of items with equal `index`.
- **Text.IsSpace** is the set of characters that JavaScript's `trim()` and Python's `str.strip()` / `\s` treat as whitespace in common.
  - Python also treats the separators `\x1c`-`\x1f` and `\x85` as whitespace.
  - JavaScript also treats U+FEFF as whitespace.
  - These characters are not whitespace here.
- **File reading in the Python scripts.** Python's text-mode reading into lines is modelled as the given list of lines.
  - Universal-newline translation of `\r\n` and `\r` is not modelled.
  - The input-file existence check is an `Option`. Output-file errors are not modelled.
- **Default arguments.** `buildIndexFromTSV`, `loadIndex` and `deleteIndex` default the index name to `'default'`, and `searchTopK` defaults `k` to 5 (src/lib/vector/index.ts:59, 116, 173 and 143). The model always passes these arguments, as every modelled caller does.
- **The registry's starting state is an assumption.** `Resolvers.Registry.constructor` starts with nothing resident. This matches src/index.ts, which starts the server without loading any index.
- **The per-platform registry** behind `resolvers.ts` is not part of this model:
  - `getPlatformTsvPath`, `getLoadedIndexes` and `SUPPORTED_PLATFORMS` are modelled only from their call sites;
  - its state is the set of resident platforms;
  - a load or build that returns makes its platform resident, and a delete that returns removes it;
  - a call that throws changes nothing;
  - `getLoadedIndexes` is a set, because its order is not known.
- **JavaScript numbers.** `Resolvers.JsValue`'s `Num` and `Resolvers.NumberOf` use unbounded integers, not IEEE doubles.
  - So `Number("9007199254740993")` is 9007199254740993 here, while JavaScript rounds it to 9007199254740992.
  - A large `k` shown in a message is written in full here, while JavaScript writes 1e21 as `1e+21`.
- **Yandex `children` that is not a list.** `"children": null`, a number or a boolean makes `flatten_yandex_categories` raise `TypeError` at scripts/convert_json_to_tsv.py:79-80. A string or object there is iterated. The model holds `children` as a list of nodes, so none of these cases is modelled.
- **An Ozon `result` that is not a list.** At scripts/convert_json_to_tsv.py:95-98 a string or object is iterated and other values raise. The model takes `result` as a list of items.
- Taxonomy.FlattenOzon and Taxonomy.OzonItemEntries take every list element as an object (`OzonItem`). Three cases of scripts/convert_json_to_tsv.py:21-48 are not modelled:
  - A string element is tested with `in` as a substring. It is skipped, unless it contains `description_category_id` or `type_id`; then indexing it raises `TypeError`.
  - A number, `null` or boolean element raises `TypeError`, because `in` needs an iterable.
  - A non-empty `children` that is a string or an object is iterated character by character or key by key; a non-zero number or `true` raises `TypeError`.
- **Resolvers.NumberOf** covers `undefined`, `null`, booleans, integers, plain objects and decimal-integer strings.
  - JavaScript's `Number` also accepts hexadecimal, binary, octal, exponent, fractional and `Infinity` notation. Here those strings give `NaN`.
  - Arrays, floats and objects with custom `valueOf` are not modelled.
- **The handlers' `catch` blocks** are modelled for the errors the registry calls throw.
  - A throw from `isIndexLoaded` or `Number(k)` is not modelled.
  - A `message` that is missing or empty gives the fallback text.
- **Concurrency and request interleaving.**
  - This covers two requests building the same platform at once.
  - Each handler is modelled as one atomic step.

## Notes on the code

- **`loadIndex` reloads every time.** It does not return early when an index is already resident. The model follows the code.
- **`deleteIndex(name)` unloads whichever store is resident**, whatever its name. It removes only the named index from disk.
- **`parseTSV` restructuring.** Its `continue` statements are written as nested branches with the same exits.
- **A Shopify line with nothing but spaces after the colon.** For example `"gid://x :  "`:
  - it matches the regex, because `.+` takes the last space;
  - it is written as a row with an empty text (`ShopifyConvert.WhitespaceText`);
  - the vector service's parser then drops that row when it reads the file;
  - so `ShopifyConvert.ConvertedReadsBack` requires that no row text is empty.
