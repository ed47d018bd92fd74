/**
 * The part of `IngestionPipeline.run` and `arun` around the executor: merging the
 * inputs, choosing the cache, and choosing which nodes go to the vector store.
 */
module Pipeline {
  import opened Wrappers
  import opened Schema
  import opened Fingerprint
  import opened Cache
  import opened Executor

  /** An optional list of nodes, with an absent one read as empty. */
  function OrEmpty(batch: Option<seq<Node>>): seq<Node>
  {
    match batch
    case Some(b) => b
    case None => []
  }

  /** Builds `input_nodes`: the `documents` argument, then the `nodes` argument, then
      the pipeline's own documents, then what the reader yields, each only if present. */
  method CollectInputs(documents: Option<seq<Node>>, nodes: Option<seq<Node>>,
                       ownDocuments: Option<seq<Node>>, readerOutput: Option<seq<Node>>)
    returns (inputNodes: seq<Node>)
    ensures inputNodes == OrEmpty(documents) + OrEmpty(nodes) + OrEmpty(ownDocuments) + OrEmpty(readerOutput)
  {
    inputNodes := [];
    if documents.Some? {
      inputNodes := inputNodes + documents.value;
    }
    if nodes.Some? {
      inputNodes := inputNodes + nodes.value;
    }
    if ownDocuments.Some? {
      inputNodes := inputNodes + ownDocuments.value;
    }
    if readerOutput.Some? {
      inputNodes := inputNodes + readerOutput.value;
    }
  }

  /** `[n for n in nodes if n.embedding is not None]`. */
  function WithEmbedding(nodes: seq<Node>): (r: seq<Node>)
    ensures forall n :: n in r <==> n in nodes && n.embedding.Some?
    ensures |r| <= |nodes|
  {
    if nodes == [] then []
    else (if nodes[0].embedding.Some? then [nodes[0]] else []) + WithEmbedding(nodes[1..])
  }

  /** The filter keeps the relative order of the nodes it keeps. */
  lemma {:induction false} WithEmbeddingAppend(a: seq<Node>, b: seq<Node>)
    ensures WithEmbedding(a + b) == WithEmbedding(a) + WithEmbedding(b)
  {
    if a == [] {
      assert a + b == b;
    } else {
      assert (a + b)[0] == a[0];
      assert (a + b)[1..] == a[1..] + b;
      WithEmbeddingAppend(a[1..], b);
    }
  }

  /** A batch whose nodes all carry an embedding is forwarded whole, and only then. */
  lemma {:induction false} WithEmbeddingKeepsAll(nodes: seq<Node>)
    ensures WithEmbedding(nodes) == nodes <==> forall k :: 0 <= k < |nodes| ==> nodes[k].embedding.Some?
  {
    if forall k :: 0 <= k < |nodes| ==> nodes[k].embedding.Some? {
      if nodes != [] {
        assert forall k :: 0 <= k < |nodes[1..]| ==> nodes[1..][k].embedding.Some? by {
          forall k | 0 <= k < |nodes[1..]| ensures nodes[1..][k].embedding.Some? {
            assert nodes[1..][k] == nodes[k + 1];
          }
        }
        WithEmbeddingKeepsAll(nodes[1..]);
      }
    } else {
      var k :| 0 <= k < |nodes| && nodes[k].embedding.None?;
      assert nodes[k] in nodes;
    }
  }

  /** Of a node with an embedding and one without, only the first is forwarded. */
  lemma SinkFilterExample(m: Node, n: Node)
    requires m.embedding.Some? && n.embedding.None?
    ensures WithEmbedding([m, n]) == [m]
  {
    assert [m, n][1..] == [n];
    assert [n][1..] == [];
  }

  /** The fields of `IngestionPipeline` that `run` and `arun` use. */
  class IngestionPipeline {
    const transformations: seq<Transformation>
    const documents: Option<seq<Node>>
    /** Whether the pipeline has a reader; what `self.reader.read()` yields on a given
        run is a parameter of that run. */
    const hasReader: bool
    const hasVectorStore: bool
    const cache: IngestionCache
    const disableCache: bool
    /** The digest function used for the cache keys (SHA-256 in the source). */
    const digest: string -> Digest

    constructor (transformations: seq<Transformation>, documents: Option<seq<Node>>, hasReader: bool,
                 hasVectorStore: bool, cache: IngestionCache, disableCache: bool, digest: string -> Digest)
      ensures this.transformations == transformations && this.documents == documents
      ensures this.hasReader == hasReader && this.hasVectorStore == hasVectorStore
      ensures this.cache == cache && this.disableCache == disableCache && this.digest == digest
    {
      this.transformations := transformations;
      this.documents := documents;
      this.hasReader := hasReader;
      this.hasVectorStore := hasVectorStore;
      this.cache := cache;
      this.disableCache := disableCache;
      this.digest := digest;
    }

    /** `run(documents=documents, nodes=nodes, cache_collection=collection)`, where
        `readerOutput` is what `self.reader.read()` yields on this run: returns the
        transformed batch, and what is passed to the vector store's `add` (`None` when
        there is no vector store). */
    method Run(documents: Option<seq<Node>>, nodes: Option<seq<Node>>, collection: Collection,
               readerOutput: seq<Node>)
      returns (result: seq<Node>, forwarded: Option<seq<Node>>)
      modifies cache
      ensures var input := OrEmpty(documents) + OrEmpty(nodes) + OrEmpty(this.documents)
                    + (if hasReader then readerOutput else []);
        var o := Execute(digest, transformations, 0, input,
                         if disableCache then None else Some(old(cache.entries)), collection, Blocking);
        && result == o.nodes
        && forwarded == (if hasVectorStore then Some(WithEmbedding(result)) else None)
        && Some(cache.entries) == (if disableCache then Some(old(cache.entries)) else o.entries)
    {
      var inputNodes := CollectInputs(documents, nodes, this.documents,
                                      if hasReader then Some(readerOutput) else None);
      var runCache: IngestionCache? := if disableCache then null else cache;
      ghost var trace;
      result, trace := RunTransformations(digest, inputNodes, transformations, runCache, collection);
      if hasVectorStore {
        forwarded := Some(WithEmbedding(result));
      } else {
        forwarded := None;
      }
    }

    /** `await arun(...)`: as `Run`, through `ARunTransformations`; the returned
        `forwarded` is what is passed to the vector store's `async_add`. */
    method ARun(documents: Option<seq<Node>>, nodes: Option<seq<Node>>, collection: Collection,
                readerOutput: seq<Node>)
      returns (result: seq<Node>, forwarded: Option<seq<Node>>)
      modifies cache
      ensures var input := OrEmpty(documents) + OrEmpty(nodes) + OrEmpty(this.documents)
                    + (if hasReader then readerOutput else []);
        var o := Execute(digest, transformations, 0, input,
                         if disableCache then None else Some(old(cache.entries)), collection, Awaited);
        && result == o.nodes
        && forwarded == (if hasVectorStore then Some(WithEmbedding(result)) else None)
        && Some(cache.entries) == (if disableCache then Some(old(cache.entries)) else o.entries)
    {
      var inputNodes := CollectInputs(documents, nodes, this.documents,
                                      if hasReader then Some(readerOutput) else None);
      var runCache: IngestionCache? := if disableCache then null else cache;
      ghost var trace;
      result, trace := ARunTransformations(digest, inputNodes, transformations, runCache, collection);
      if hasVectorStore {
        forwarded := Some(WithEmbedding(result));
      } else {
        forwarded := None;
      }
    }
  }
}
