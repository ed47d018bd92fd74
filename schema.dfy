/**
 * The two entities the transformation-cache engine handles: nodes (records) and
 * transformations (pipeline stages).
 */
module Schema {
  import opened Wrappers

  /**
   * A node as the engine sees it: `content` stands for
   * `node.get_content(metadata_mode=MetadataMode.ALL)`, the only text that takes part in
   * the cache key, and `embedding` is the optional vector that decides whether the node
   * reaches the vector store.
   */
  datatype Node = Node(content: string, embedding: Option<seq<real>>)

  /**
   * A transformation component: `config` stands for `str(transformation.to_dict())`,
   * `call` for the blocking `transform(nodes, **kwargs)` and `acall` for the awaited
   * `transform.acall(nodes, **kwargs)`, with the keyword arguments of the run fixed.
   */
  datatype Transformation = Transformation(
    config: string,
    call: seq<Node> -> seq<Node>,
    acall: seq<Node> -> seq<Node>)
}
