/**
 * `run_transformations` and `arun_transformations`: thread one batch through an
 * ordered list of transformations, consulting the cache before each step when one is
 * given. `Execute` is the specification both loops are proved against.
 */
module Executor {
  import opened Wrappers
  import opened Schema
  import opened Fingerprint
  import opened Cache

  /** Which of a transformation's two entry points a run uses. */
  datatype Mode = Blocking | Awaited

  function Apply(t: Transformation, mode: Mode, nodes: seq<Node>): seq<Node>
  {
    match mode
    case Blocking => t.call(nodes)
    case Awaited => t.acall(nodes)
  }

  /** What a run does that can be seen from outside it: cache reads and writes, and
      calls of the transformation at a given index of the list. */
  datatype Event =
    | Get(collection: Collection, key: Digest)
    | Call(step: nat)
    | Put(collection: Collection, key: Digest)

  /** The batch a run returns, the cache entries it leaves (`None` when it has no
      cache) and its events in order. */
  datatype Outcome = Outcome(nodes: seq<Node>, entries: Option<Entries>, trace: seq<Event>)

  /** One iteration of the loop, for the transformation at index `i`. */
  function Step(digest: string -> Digest, t: Transformation, i: nat, nodes: seq<Node>,
                entries: Option<Entries>, collection: Collection, mode: Mode): Outcome
  {
    match entries
    case None => Outcome(Apply(t, mode, nodes), None, [Call(i)])
    case Some(e) =>
      var key := TransformationHash(digest, nodes, t);
      match Lookup(e, collection, key)
      case Some(cached) => Outcome(cached, entries, [Get(collection, key)])
      case None =>
        var out := Apply(t, mode, nodes);
        Outcome(out, Some(e[(collection, key) := out]), [Get(collection, key), Call(i), Put(collection, key)])
  }

  /** One step keeps having a cache or not, never drops or changes an entry, and calls
      the transformation exactly when there is no cache or the key of the current batch
      is missing. */
  lemma StepFacts(digest: string -> Digest, t: Transformation, i: nat, nodes: seq<Node>,
                  entries: Option<Entries>, collection: Collection, mode: Mode)
    ensures var r := Step(digest, t, i, nodes, entries, collection, mode);
      && (r.entries.None? <==> entries.None?)
      && (entries.Some? ==> Extends(entries.value, r.entries.value))
      && (Call(i) in r.trace
          <==> entries.None? || Lookup(entries.value, collection, TransformationHash(digest, nodes, t)).None?)
  {
  }

  /** The run from the transformation at index `i` to the end of the list. A run
      without a cache ends without one and makes one event per remaining step. */
  function Execute(digest: string -> Digest, ts: seq<Transformation>, i: nat, nodes: seq<Node>,
                   entries: Option<Entries>, collection: Collection, mode: Mode): (r: Outcome)
    requires i <= |ts|
    ensures r.entries.None? <==> entries.None?
    ensures entries.None? ==> |r.trace| == |ts| - i
    decreases |ts| - i
  {
    if i == |ts| then Outcome(nodes, entries, [])
    else
      var s := Step(digest, ts[i], i, nodes, entries, collection, mode);
      var rest := Execute(digest, ts, i + 1, s.nodes, s.entries, collection, mode);
      Outcome(rest.nodes, rest.entries, s.trace + rest.trace)
  }

  /** The entries of an optional cache. */
  function CacheState(cache: IngestionCache?): Option<Entries>
    reads cache
  {
    if cache == null then None else Some(cache.entries)
  }

  lemma AppendAssociative(a: seq<Event>, b: seq<Event>, c: seq<Event>)
    ensures a + (b + c) == (a + b) + c
  {
  }

  /** The body of the loop of both entry points: with a cache, key the current batch and
      either take the cached batch or call the transformation and store its output;
      without one, just call it. The two entry points differ only in `mode`. */
  method RunStep(digest: string -> Digest, transform: Transformation, i: nat, nodes: seq<Node>,
                 cache: IngestionCache?, collection: Collection, mode: Mode)
    returns (result: seq<Node>, ghost events: seq<Event>)
    modifies cache
    ensures var s := Step(digest, transform, i, nodes, old(CacheState(cache)), collection, mode);
      result == s.nodes && CacheState(cache) == s.entries && events == s.trace
  {
    if cache != null {
      var hash := TransformationHash(digest, nodes, transform);
      var cachedNodes := cache.Get(hash, collection);
      if cachedNodes.Some? {
        result := cachedNodes.value;
        events := [Get(collection, hash)];
      } else {
        result := if mode == Blocking then transform.call(nodes) else transform.acall(nodes);
        cache.Put(hash, result, collection);
        events := [Get(collection, hash), Call(i), Put(collection, hash)];
      }
    } else {
      result := if mode == Blocking then transform.call(nodes) else transform.acall(nodes);
      events := [Call(i)];
    }
  }

  /** `run_transformations(nodes, transformations, cache=cache, cache_collection=collection)`. */
  method RunTransformations(digest: string -> Digest, nodes: seq<Node>, transformations: seq<Transformation>,
                            cache: IngestionCache?, collection: Collection)
    returns (result: seq<Node>, ghost trace: seq<Event>)
    modifies cache
    ensures var o := Execute(digest, transformations, 0, nodes, old(CacheState(cache)), collection, Blocking);
      result == o.nodes && CacheState(cache) == o.entries && trace == o.trace
  {
    ghost var goal := Execute(digest, transformations, 0, nodes, CacheState(cache), collection, Blocking);
    result, trace := nodes, [];
    for i := 0 to |transformations|
      invariant var rest := Execute(digest, transformations, i, result, CacheState(cache), collection, Blocking);
        rest.nodes == goal.nodes && rest.entries == goal.entries && trace + rest.trace == goal.trace
    {
      ghost var events;
      ghost var now := Execute(digest, transformations, i, result, CacheState(cache), collection, Blocking);
      result, events := RunStep(digest, transformations[i], i, result, cache, collection, Blocking);
      ghost var rest := Execute(digest, transformations, i + 1, result, CacheState(cache), collection, Blocking);
      assert now == Outcome(rest.nodes, rest.entries, events + rest.trace);
      AppendAssociative(trace, events, rest.trace);
      trace := trace + events;
    }
  }

  /** `await arun_transformations(...)`: the same loop, awaiting `transform.acall`. */
  method ARunTransformations(digest: string -> Digest, nodes: seq<Node>, transformations: seq<Transformation>,
                             cache: IngestionCache?, collection: Collection)
    returns (result: seq<Node>, ghost trace: seq<Event>)
    modifies cache
    ensures var o := Execute(digest, transformations, 0, nodes, old(CacheState(cache)), collection, Awaited);
      result == o.nodes && CacheState(cache) == o.entries && trace == o.trace
  {
    ghost var goal := Execute(digest, transformations, 0, nodes, CacheState(cache), collection, Awaited);
    result, trace := nodes, [];
    for i := 0 to |transformations|
      invariant var rest := Execute(digest, transformations, i, result, CacheState(cache), collection, Awaited);
        rest.nodes == goal.nodes && rest.entries == goal.entries && trace + rest.trace == goal.trace
    {
      ghost var events;
      ghost var now := Execute(digest, transformations, i, result, CacheState(cache), collection, Awaited);
      result, events := RunStep(digest, transformations[i], i, result, cache, collection, Awaited);
      ghost var rest := Execute(digest, transformations, i + 1, result, CacheState(cache), collection, Awaited);
      assert now == Outcome(rest.nodes, rest.entries, events + rest.trace);
      AppendAssociative(trace, events, rest.trace);
      trace := trace + events;
    }
  }
}
