# Ingestion pipeline transformation cache

A model of the transformation-cache engine of llama_index's ingestion pipeline
(`llama_index/ingestion/pipeline.py`). An ingestion run threads one batch of nodes
through an ordered list of transformations. With a cache, each step first computes a key
from the current batch and the transformation's cleaned configuration. On a hit it takes
the stored batch and skips the transformation. On a miss it calls the transformation and
stores the output under that key.

Modules, one per file:

- `Wrappers` (`wrappers.dfy`): the `Option` type.
- `Schema` (`schema.dfy`): a `Node` is its content string and an optional embedding. A
  `Transformation` is its configuration string, its blocking entry point (`__call__`) and
  its awaited entry point (`acall`), both total functions on batches.
- `ConfigCleaning` (`cleaning.dfy`): `remove_unstable_values`. It deletes every
  leftmost non-overlapping match of `<[\w\s_\. ]+ at 0x[a-z0-9]+>`. `IsAddressToken` is
  the language of the pattern, written as a reference definition. `MatchAt` is the
  matcher the substitution uses, and it is proved equal to that language.
- `Fingerprint` (`fingerprint.dfy`): `get_transformation_hash`. The digest function
  (SHA-256 in the source) is a parameter `digest: string -> Digest`. Where distinct keys
  matter, it is required to be injective.
- `Cache` (`cache.dfy`): the `get`/`put` interface of `IngestionCache`, as a class over a
  map from (collection, key) to batches.
- `Executor` (`executor.dfy`): `run_transformations` and `arun_transformations` as
  imperative loops over a nullable `IngestionCache`. Both are proved against one
  specification function, `Execute`. It returns the final batch, the final cache entries
  and a trace of the run's cache reads, transformation calls and cache writes.
- `ExecutorProperties` (`executor_properties.dfy`): what a run promises, proved about
  `Execute`.
- `Pipeline` (`pipeline.dfy`): the part of `IngestionPipeline.run`/`arun` around the
  executor. It covers the order in which inputs are merged, the choice of cache, and the
  filter that picks which nodes go to the vector store.

External inputs become parameters:

- the digest function;
- node contents, as the strings `get_content` would return;
- configurations, as the strings `str(to_dict())` would return;
- the reader's output, as the batch `reader.read()` returns on that run.

## Model

| member | source | states |
|---|---|---|
| ConfigCleaning.IsAddressToken | llama_index/ingestion/pipeline.py:76 | the language of the pattern: `<`, a non-empty run of `[\w\s_\. ]`, ` at 0x`, a non-empty run of `[a-z0-9]`, `>`; a word of it has at least ten characters and its only `>` is the last one |
| ConfigCleaning.InnerRunIsLongest | llama_index/ingestion/pipeline.py:76 | the run measured at the front of the text is made of `[\w\s_\. ]` characters and stops at the first character outside that class |
| ConfigCleaning.MatchAt | llama_index/ingestion/pipeline.py:76 | the length of the match at the front of the text, if any, found by measuring the `[\w\s_\. ]` run after `<` and looking for ` at 0x` followed by `[a-z0-9]` before the `>`; a reported length is positive and within the text, and `MatchAtIff` pins it to the language |
| ConfigCleaning.MatchAtIff | llama_index/ingestion/pipeline.py:76 | the matcher reports length n at the front of the text exactly when the first n characters are a whole match of the pattern, so there is at most one match per position |
| ConfigCleaning.MatchAtSound | llama_index/ingestion/pipeline.py:76 | every match the matcher reports is a word of the pattern's language |
| ConfigCleaning.MatchAtComplete | llama_index/ingestion/pipeline.py:76 | every word of the pattern's language at the front of the text is the match the matcher reports |
| ConfigCleaning.TokenOf | llama_index/ingestion/pipeline.py:76 | `<` x ` at 0x` y `>` is a match for any non-empty x over the first class and any non-empty y over `[a-z0-9]` |
| ConfigCleaning.RemoveUnstableValues | llama_index/ingestion/pipeline.py:69-77 | the substitution never makes the text longer |
| ConfigCleaning.NoAngleUnchanged | llama_index/ingestion/pipeline.py:69-77 | a text with no `<` comes back unchanged |
| ConfigCleaning.CleanBeforeAngle | llama_index/ingestion/pipeline.py:77 | the text before a `<` is cleaned independently of what follows it |
| ConfigCleaning.DropsToken | llama_index/ingestion/pipeline.py:77 | a whole match at the front is deleted and the scan resumes right after it |
| ConfigCleaning.KeepsWhenNoToken | llama_index/ingestion/pipeline.py:77 | when no prefix of the text is a whole match of the pattern, the first character is kept and the scan moves on by one |
| ConfigCleaning.TokensAreInterchangeable | llama_index/ingestion/pipeline.py:69-77 | cleaning p + t + q for an address token t gives clean(p) + clean(q) for any texts p and q, so it is the same whichever address token t is |
| ConfigCleaning.DocExampleObject | llama_index/ingestion/pipeline.py:73 | `<__main__.Test object at 0x7fb9f3793f50>` is cleaned to the empty string |
| ConfigCleaning.DocExampleFunction | llama_index/ingestion/pipeline.py:74 | `<function test_fn at 0x7fb9f37a8900>` is cleaned to the empty string |
| ConfigCleaning.NestedTokenFirstPass | llama_index/ingestion/pipeline.py:77 | one pass over `<a<b at 0x1> at 0x2>` deletes only the inner token, leaving `<a at 0x2>` |
| ConfigCleaning.CleaningIsNotIdempotent | llama_index/ingestion/pipeline.py:77 | a second pass over that result deletes the rest, so cleaning twice differs from cleaning once |
| Fingerprint.NodesString | llama_index/ingestion/pipeline.py:84-86 | the node contents joined with no separator in batch order; `NodesStringAppend` states how it composes |
| Fingerprint.TransformationHash | llama_index/ingestion/pipeline.py:80-91 | the digest of the joined contents followed by the cleaned configuration; `KeyReflectsContents` and `KeyReflectsConfig` state what it distinguishes, `KeyIgnoresAddresses` and `KeyIgnoresBehaviour` what it ignores |
| Fingerprint.KeyIgnoresBehaviour | llama_index/ingestion/pipeline.py:88-91 | two transformations with the same configuration share the key of every batch, whatever they compute |
| Fingerprint.NodesStringAppend | llama_index/ingestion/pipeline.py:84-86 | joining node contents distributes over concatenation of batches |
| Fingerprint.KeyIgnoresAddresses | llama_index/ingestion/pipeline.py:88-91 | two configurations that differ only in one address token give the same key for the same batch |
| Fingerprint.KeyReflectsContents | llama_index/ingestion/pipeline.py:84-91 | with an injective digest, two batches share a key for one transformation exactly when their joined contents are equal |
| Fingerprint.KeyReflectsConfig | llama_index/ingestion/pipeline.py:88-91 | with an injective digest, two transformations share a key for one batch exactly when their cleaned configurations are equal, so a change of settings that survives cleaning changes the key |
| Fingerprint.NodeOrderMatters | llama_index/ingestion/pipeline.py:84-86 | with an injective digest, swapping two nodes keeps the key exactly when their contents commute |
| Fingerprint.NodeBoundariesDoNotMatter | llama_index/ingestion/pipeline.py:84-86 | contents are joined with no separator, so `["ab", "c"]` and `["a", "bc"]` share a key under any digest |
| Cache.Lookup | llama_index/ingestion/pipeline.py:117-118 | the answer of `get` on a map of entries: the stored batch exactly when the (collection, key) entry exists, otherwise `None` |
| Cache.IngestionCache.Get | llama_index/ingestion/pipeline.py:117 | `get` returns the stored batch exactly when the (collection, key) entry exists |
| Cache.IngestionCache.Put | llama_index/ingestion/pipeline.py:122 | `put` overwrites that one entry and leaves every other entry as it was |
| Executor.Step | llama_index/ingestion/pipeline.py:115-124 | one loop iteration as a function of the batch and the cache entries: the batch, entries and events after it |
| Executor.StepFacts | llama_index/ingestion/pipeline.py:115-124 | a step keeps having a cache or not, never drops or changes an entry, and calls the transformation exactly when there is no cache or the key of the current batch is missing |
| Executor.Execute | llama_index/ingestion/pipeline.py:114-126 | the whole loop from index i: a run without a cache ends without one and makes one event per remaining step; the `ExecutorProperties` lemmas state the rest |
| Executor.RunStep | llama_index/ingestion/pipeline.py:115-124 | one loop iteration: the returned batch, the new cache entries and the events match the one-step specification `Step` on the old cache state |
| Executor.RunTransformations | llama_index/ingestion/pipeline.py:94-126 | the loop returns the batch of `Execute` on the old cache, leaves the cache with its entries, and makes exactly its events in order |
| Executor.ARunTransformations | llama_index/ingestion/pipeline.py:129-162 | the awaited loop does the same, with each transformation's `acall` |
| ExecutorProperties.WithoutCacheIsFold | llama_index/ingestion/pipeline.py:114-124 | with no cache the result is the left fold of the list, each transformation is called exactly once in list order, and no cache is read or written |
| ExecutorProperties.EmptyListIsIdentity | llama_index/ingestion/pipeline.py:114-126 | an empty list returns the input batch unchanged and leaves the cache as it was |
| ExecutorProperties.CallsFrom | llama_index/ingestion/pipeline.py:114 | a run from position i calls only the transformations at position i or later |
| ExecutorProperties.HitSkipsTransformation | llama_index/ingestion/pipeline.py:115-119 | on a hit, an empty cached batch included, the step only reads the cache and the transformation is never called; the rest of the run starts from the cached batch |
| ExecutorProperties.MissCallsAndStores | llama_index/ingestion/pipeline.py:116-122 | on a miss the transformation is called on the current batch and its output is stored under that batch's key in the run's collection; only that entry is added |
| ExecutorProperties.ExecuteExtends | llama_index/ingestion/pipeline.py:115-122 | a run with a cache never removes or changes an existing entry |
| ExecutorProperties.RerunHits | llama_index/ingestion/pipeline.py:114-126 | re-running over any cache that keeps every entry a first run left returns the same batch, writes nothing and calls no transformation |
| ExecutorProperties.CacheIdempotence | llama_index/ingestion/pipeline.py:114-126 | a second run with the same batch, list and collection over the cache left by the first returns the same batch, leaves the cache unchanged and calls no transformation, in either mode |
| ExecutorProperties.AwaitedMatchesBlocking | llama_index/ingestion/pipeline.py:149-162 | when every `acall` agrees with the blocking call, the awaited run returns the same batch and cache and makes the same gets, calls and puts in the same order |
| ExecutorProperties.SingleStepScenario | llama_index/ingestion/pipeline.py:114-126 | one transformation over an empty cache: the first run reads, calls and stores once; the second run only reads and returns the same batch |
| Pipeline.CollectInputs | llama_index/ingestion/pipeline.py:500-511 | the inputs are merged in the order `documents` argument, `nodes` argument, the pipeline's own documents, the reader's output, with an absent one contributing nothing |
| Pipeline.WithEmbedding | llama_index/ingestion/pipeline.py:523 | a node is forwarded exactly when it is in the batch and has an embedding, and the forwarded list is never longer than the batch |
| Pipeline.WithEmbeddingAppend | llama_index/ingestion/pipeline.py:523 | the filter keeps the relative order of the nodes it keeps |
| Pipeline.WithEmbeddingKeepsAll | llama_index/ingestion/pipeline.py:523 | the whole batch is forwarded exactly when every node has an embedding |
| Pipeline.SinkFilterExample | llama_index/ingestion/pipeline.py:523 | of a node with an embedding followed by one without, only the first is forwarded |
| Pipeline.IngestionPipeline.Run | llama_index/ingestion/pipeline.py:492-525 | returns the blocking run of the pipeline's list over the merged inputs, with what the reader yields on this run last; the pipeline's cache is used unless it is disabled; a disabled cache is left untouched; the vector store receives exactly the embedded nodes of the result when there is one |
| Pipeline.IngestionPipeline.ARun | llama_index/ingestion/pipeline.py:527-562 | the same for the awaited run, with the vector store's `async_add` |

## Left out

- `register`, `run_remote` and `from_pipeline_name` (llama_index/ingestion/pipeline.py:267-490): network calls to the hosted platform.
- `deserialize_*_component` (llama_index/ingestion/pipeline.py:48-66): dynamic lookups of classes by name.
- `__init__`, its environment-variable defaults, `_get_default_transformations` and `from_service_context`: object construction only. `IngestionPipeline.constructor` takes the fields directly.
- SHA-256 and the UTF-8 encoding before it: the digest is a parameter. `Fingerprint.KeyReflectsContents` and `Fingerprint.NodeOrderMatters` require it to be injective, which SHA-256 is only in practice.
- `get_content(metadata_mode=ALL)` and `to_dict()`: foreign calls. Contents and configurations are given strings.
- The `in_place` copy (llama_index/ingestion/pipeline.py:111-112): batches are values here, so the copy has no visible effect.
- The vector store's `add`/`async_add`: external I/O. `Run`/`ARun` return the batch they would pass to it.
- `show_progress` and `**kwargs`: they are forwarded to every transformation unchanged, so each transformation function stands for the call with those arguments fixed.
- `IngestionCache` itself is not part of this model. Only the `get`/`put` contract the engine relies on is modelled. Its default collection name is represented as `None`, and its storage backend is not modelled.
- ConfigCleaning.IsWordChar: `\w` and `\s` are taken over ASCII only. Python also matches non-ASCII letters, digits and spaces, so for such configurations the model deletes fewer tokens than the source.
- Errors raised by transformations or by the cache backend are not modelled. The source has no special handling for them: an exception simply ends the run. There is no `try`/`except` around `cache.get` or `cache.put` (llama_index/ingestion/pipeline.py:115-122), so a failing cache is not treated as a miss.
- The awaited run is modelled as the same sequential loop. Other coroutines that touch the shared cache while a transformation is awaited are not modelled.
