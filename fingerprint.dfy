/**
 * `get_transformation_hash`: the cache key of one pipeline step, the digest of the
 * batch's contents joined in order followed by the cleaned configuration string.
 */
module Fingerprint {
  import opened Wrappers
  import opened Schema
  import ConfigCleaning

  /** A hex digest; the digest function itself (SHA-256) is a parameter. */
  type Digest = string

  ghost predicate Injective(digest: string -> Digest)
  {
    forall x, y :: digest(x) == digest(y) ==> x == y
  }

  /** `"".join(node content for node in nodes)`: no separator, batch order. */
  function NodesString(nodes: seq<Node>): string
  {
    if nodes == [] then "" else nodes[0].content + NodesString(nodes[1..])
  }

  /** The key of applying `t` to `nodes`. */
  function TransformationHash(digest: string -> Digest, nodes: seq<Node>, t: Transformation): Digest
  {
    digest(NodesString(nodes) + ConfigCleaning.RemoveUnstableValues(t.config))
  }

  /** Joining contents distributes over concatenation of batches. */
  lemma {:induction false} NodesStringAppend(a: seq<Node>, b: seq<Node>)
    ensures NodesString(a + b) == NodesString(a) + NodesString(b)
  {
    if a == [] {
      assert a + b == b;
    } else {
      assert (a + b)[1..] == a[1..] + b;
      NodesStringAppend(a[1..], b);
    }
  }

  /** The key sees a transformation only through its configuration: two transformations
      with the same configuration share the key of every batch, whatever they compute. */
  lemma KeyIgnoresBehaviour(digest: string -> Digest, nodes: seq<Node>, t1: Transformation, t2: Transformation)
    requires t1.config == t2.config
    ensures TransformationHash(digest, nodes, t1) == TransformationHash(digest, nodes, t2)
  {
  }

  /** Configurations that differ only in one address token give the same key. */
  lemma KeyIgnoresAddresses(digest: string -> Digest, nodes: seq<Node>, t1: Transformation, t2: Transformation,
                            p: string, a1: string, a2: string, q: string)
    requires ConfigCleaning.IsAddressToken(a1) && ConfigCleaning.IsAddressToken(a2)
    requires t1.config == p + a1 + q && t2.config == p + a2 + q
    ensures TransformationHash(digest, nodes, t1) == TransformationHash(digest, nodes, t2)
  {
    ConfigCleaning.TokensAreInterchangeable(p, a1, a2, q);
  }

  /** For one transformation and an injective digest, two batches share a key exactly
      when their joined contents are equal. */
  lemma KeyReflectsContents(digest: string -> Digest, a: seq<Node>, b: seq<Node>, t: Transformation)
    requires Injective(digest)
    ensures TransformationHash(digest, a, t) == TransformationHash(digest, b, t) <==> NodesString(a) == NodesString(b)
  {
    var c := ConfigCleaning.RemoveUnstableValues(t.config);
    var x, y := NodesString(a), NodesString(b);
    if TransformationHash(digest, a, t) == TransformationHash(digest, b, t) {
      assert x + c == y + c;
      assert |x| == |y|;
      assert x == (x + c)[..|x|];
      assert y == (y + c)[..|y|];
    }
  }

  /** For one batch and an injective digest, two transformations share a key exactly
      when their cleaned configurations are equal: a change of settings changes the key. */
  lemma KeyReflectsConfig(digest: string -> Digest, nodes: seq<Node>, t1: Transformation, t2: Transformation)
    requires Injective(digest)
    ensures TransformationHash(digest, nodes, t1) == TransformationHash(digest, nodes, t2)
        <==> ConfigCleaning.RemoveUnstableValues(t1.config) == ConfigCleaning.RemoveUnstableValues(t2.config)
  {
    var x := NodesString(nodes);
    var c1, c2 := ConfigCleaning.RemoveUnstableValues(t1.config), ConfigCleaning.RemoveUnstableValues(t2.config);
    if TransformationHash(digest, nodes, t1) == TransformationHash(digest, nodes, t2) {
      assert x + c1 == x + c2;
      assert c1 == (x + c1)[|x|..];
      assert c2 == (x + c2)[|x|..];
    }
  }

  /** Node order takes part in the key: swapping two nodes keeps the key exactly when
      their contents commute. */
  lemma NodeOrderMatters(digest: string -> Digest, m: Node, n: Node, t: Transformation)
    requires Injective(digest)
    ensures TransformationHash(digest, [m, n], t) == TransformationHash(digest, [n, m], t)
        <==> m.content + n.content == n.content + m.content
  {
    assert NodesString([m, n]) == m.content + n.content by {
      assert [m, n][1..] == [n];
      assert NodesString([n]) == n.content + NodesString([]);
    }
    assert NodesString([n, m]) == n.content + m.content by {
      assert [n, m][1..] == [m];
      assert NodesString([m]) == m.content + NodesString([]);
    }
    KeyReflectsContents(digest, [m, n], [n, m], t);
  }

  /** Node boundaries do not take part in the key: `["ab", "c"]` and `["a", "bc"]` share
      it whatever the digest. */
  lemma NodeBoundariesDoNotMatter(digest: string -> Digest, t: Transformation)
    ensures TransformationHash(digest, [Node("ab", None), Node("c", None)], t)
         == TransformationHash(digest, [Node("a", None), Node("bc", None)], t)
  {
    var ab, c, a, bc := Node("ab", None), Node("c", None), Node("a", None), Node("bc", None);
    assert NodesString([ab, c]) == "abc" by {
      assert [ab, c][1..] == [c];
      assert NodesString([c]) == "c" + NodesString([]);
    }
    assert NodesString([a, bc]) == "abc" by {
      assert [a, bc][1..] == [bc];
      assert NodesString([bc]) == "bc" + NodesString([]);
    }
  }
}
