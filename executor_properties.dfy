/**
 * What the executor promises, stated about its specification `Execute` and therefore
 * about both `RunTransformations` and `ARunTransformations`.
 */
module ExecutorProperties {
  import opened Wrappers
  import opened Schema
  import opened Fingerprint
  import opened Cache
  import opened Executor

  /** The left fold of the list over a batch: the last transformation is applied last. */
  function Fold(ts: seq<Transformation>, nodes: seq<Node>): seq<Node>
    decreases |ts|
  {
    if ts == [] then nodes else ts[|ts| - 1].call(Fold(ts[..|ts| - 1], nodes))
  }

  lemma {:induction false} WithoutCacheFrom(digest: string -> Digest, ts: seq<Transformation>, i: nat,
                                            nodes: seq<Node>, collection: Collection)
    requires i <= |ts|
    ensures var o := Execute(digest, ts, i, Fold(ts[..i], nodes), None, collection, Blocking);
      && o.nodes == Fold(ts, nodes)
      && o.entries == None
      && |o.trace| == |ts| - i
      && forall k :: 0 <= k < |o.trace| ==> o.trace[k] == Call(i + k)
    decreases |ts| - i
  {
    if i == |ts| {
      assert ts[..i] == ts;
    } else {
      assert ts[..i + 1][..i] == ts[..i];
      WithoutCacheFrom(digest, ts, i + 1, nodes, collection);
    }
  }

  /** With no cache the run is the left fold of the list: every transformation is
      called exactly once, in list order, and no cache is read or written. */
  lemma WithoutCacheIsFold(digest: string -> Digest, ts: seq<Transformation>, nodes: seq<Node>,
                           collection: Collection)
    ensures var o := Execute(digest, ts, 0, nodes, None, collection, Blocking);
      && o.nodes == Fold(ts, nodes)
      && o.entries == None
      && |o.trace| == |ts|
      && forall k :: 0 <= k < |ts| ==> o.trace[k] == Call(k)
  {
    assert ts[..0] == [];
    WithoutCacheFrom(digest, ts, 0, nodes, collection);
  }

  /** An empty list returns the batch unchanged and leaves the cache alone. */
  lemma EmptyListIsIdentity(digest: string -> Digest, nodes: seq<Node>, entries: Option<Entries>,
                            collection: Collection, mode: Mode)
    ensures Execute(digest, [], 0, nodes, entries, collection, mode) == Outcome(nodes, entries, [])
  {
  }

  /** A run from index `i` only calls transformations at index `i` or later. */
  lemma {:induction false} CallsFrom(digest: string -> Digest, ts: seq<Transformation>, i: nat, nodes: seq<Node>,
                                     entries: Option<Entries>, collection: Collection, mode: Mode)
    requires i <= |ts|
    ensures forall e :: e in Execute(digest, ts, i, nodes, entries, collection, mode).trace && e.Call?
                        ==> i <= e.step < |ts|
    decreases |ts| - i
  {
    if i < |ts| {
      var s := Step(digest, ts[i], i, nodes, entries, collection, mode);
      CallsFrom(digest, ts, i + 1, s.nodes, s.entries, collection, mode);
    }
  }

  /** On a hit the transformation is not called, the batch becomes the cached one (an
      empty one included), nothing is written, and the rest of the run is keyed from
      the cached batch. */
  lemma HitSkipsTransformation(digest: string -> Digest, ts: seq<Transformation>, i: nat, nodes: seq<Node>,
                               entries: Entries, collection: Collection, mode: Mode)
    requires i < |ts|
    requires Lookup(entries, collection, TransformationHash(digest, nodes, ts[i])).Some?
    ensures var key := TransformationHash(digest, nodes, ts[i]);
      var cached := Lookup(entries, collection, key).value;
      var o := Execute(digest, ts, i, nodes, Some(entries), collection, mode);
      var rest := Execute(digest, ts, i + 1, cached, Some(entries), collection, mode);
      && o.nodes == rest.nodes
      && o.entries == rest.entries
      && o.trace == [Get(collection, key)] + rest.trace
      && Call(i) !in o.trace
  {
    var key := TransformationHash(digest, nodes, ts[i]);
    var cached := Lookup(entries, collection, key).value;
    CallsFrom(digest, ts, i + 1, cached, Some(entries), collection, mode);
  }

  /** On a miss the transformation is called once on the current batch, and its output
      is stored under the key of that batch, in the run's collection and nowhere else. */
  lemma MissCallsAndStores(digest: string -> Digest, ts: seq<Transformation>, i: nat, nodes: seq<Node>,
                           entries: Entries, collection: Collection, mode: Mode)
    requires i < |ts|
    requires Lookup(entries, collection, TransformationHash(digest, nodes, ts[i])).None?
    ensures var key := TransformationHash(digest, nodes, ts[i]);
      var out := Apply(ts[i], mode, nodes);
      var stored := entries[(collection, key) := out];
      var o := Execute(digest, ts, i, nodes, Some(entries), collection, mode);
      var rest := Execute(digest, ts, i + 1, out, Some(stored), collection, mode);
      && o.nodes == rest.nodes
      && o.entries == rest.entries
      && o.trace == [Get(collection, key), Call(i), Put(collection, key)] + rest.trace
      && stored.Keys == entries.Keys + {(collection, key)}
      && forall k :: k in entries ==> stored[k] == entries[k]
  {
  }

  /** A run with a cache never removes or changes an entry: `put` only happens on a
      miss, where the key is absent. */
  lemma {:induction false} ExecuteExtends(digest: string -> Digest, ts: seq<Transformation>, i: nat, nodes: seq<Node>,
                                          entries: Entries, collection: Collection, mode: Mode)
    requires i <= |ts|
    ensures var o := Execute(digest, ts, i, nodes, Some(entries), collection, mode);
      o.entries.Some? && Extends(entries, o.entries.value)
    decreases |ts| - i
  {
    if i < |ts| {
      var s := Step(digest, ts[i], i, nodes, Some(entries), collection, mode);
      ExecuteExtends(digest, ts, i + 1, s.nodes, s.entries.value, collection, mode);
    }
  }

  /** Re-running from a cache that holds everything a first run left behind returns the
      same batch, only reads the cache and calls no transformation, in either mode. */
  lemma {:induction false} RerunHits(digest: string -> Digest, ts: seq<Transformation>, i: nat, nodes: seq<Node>,
                                     first: Entries, later: Entries, collection: Collection, m1: Mode, m2: Mode)
    requires i <= |ts|
    requires Execute(digest, ts, i, nodes, Some(first), collection, m1).entries.Some?
    requires Extends(Execute(digest, ts, i, nodes, Some(first), collection, m1).entries.value, later)
    ensures var o1 := Execute(digest, ts, i, nodes, Some(first), collection, m1);
      var o2 := Execute(digest, ts, i, nodes, Some(later), collection, m2);
      o2.nodes == o1.nodes && o2.entries == Some(later) && forall e :: e in o2.trace ==> e.Get?
    decreases |ts| - i
  {
    if i < |ts| {
      var s := Step(digest, ts[i], i, nodes, Some(first), collection, m1);
      ExecuteExtends(digest, ts, i + 1, s.nodes, s.entries.value, collection, m1);
      var key := TransformationHash(digest, nodes, ts[i]);
      assert (collection, key) in s.entries.value && s.entries.value[(collection, key)] == s.nodes;
      RerunHits(digest, ts, i + 1, s.nodes, s.entries.value, later, collection, m1, m2);
    }
  }

  /** Cache idempotence: a second run with the same batch, list and collection over the
      cache the first run left returns the same batch, leaves the cache as it is and
      calls no transformation. */
  lemma CacheIdempotence(digest: string -> Digest, ts: seq<Transformation>, nodes: seq<Node>,
                         entries: Entries, collection: Collection, m1: Mode, m2: Mode)
    ensures var first := Execute(digest, ts, 0, nodes, Some(entries), collection, m1);
      var second := Execute(digest, ts, 0, nodes, first.entries, collection, m2);
      && second.nodes == first.nodes
      && second.entries == first.entries
      && forall e :: e in second.trace ==> e.Get?
  {
    ExecuteExtends(digest, ts, 0, nodes, entries, collection, m1);
    var after := Execute(digest, ts, 0, nodes, Some(entries), collection, m1).entries.value;
    RerunHits(digest, ts, 0, nodes, entries, after, collection, m1, m2);
  }

  /** Every transformation's awaited entry point computes what the blocking one does. */
  ghost predicate AwaitedAgrees(ts: seq<Transformation>)
  {
    forall k, x :: 0 <= k < |ts| ==> ts[k].acall(x) == ts[k].call(x)
  }

  /** When `acall` agrees with the call, the awaited run makes the same cache reads and
      writes, calls the same steps in the same order, and returns the same batch. */
  lemma {:induction false} AwaitedMatchesBlocking(digest: string -> Digest, ts: seq<Transformation>, i: nat,
                                                  nodes: seq<Node>, entries: Option<Entries>, collection: Collection)
    requires i <= |ts|
    requires AwaitedAgrees(ts)
    ensures Execute(digest, ts, i, nodes, entries, collection, Awaited)
         == Execute(digest, ts, i, nodes, entries, collection, Blocking)
    decreases |ts| - i
  {
    if i < |ts| {
      var s := Step(digest, ts[i], i, nodes, entries, collection, Blocking);
      assert Step(digest, ts[i], i, nodes, entries, collection, Awaited) == s;
      AwaitedMatchesBlocking(digest, ts, i + 1, s.nodes, s.entries, collection);
    }
  }

  /** One transformation over an empty cache: the first run reads, calls it once and
      stores one entry; the second run only reads and returns the same batch. */
  lemma SingleStepScenario(digest: string -> Digest, t: Transformation, nodes: seq<Node>, collection: Collection)
    ensures var key := TransformationHash(digest, nodes, t);
      var stored := map[(collection, key) := t.call(nodes)];
      var first := Execute(digest, [t], 0, nodes, Some(map[]), collection, Blocking);
      var second := Execute(digest, [t], 0, nodes, first.entries, collection, Blocking);
      && first == Outcome(t.call(nodes), Some(stored), [Get(collection, key), Call(0), Put(collection, key)])
      && second == Outcome(t.call(nodes), Some(stored), [Get(collection, key)])
  {
  }
}
