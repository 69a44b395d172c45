/**
 * The part of the Markdown syntax tree the tangle front half looks at.
 * The tree itself comes from a foreign parser; only its shape is modelled:
 * a fenced code block, or any other node with an optional list of children.
 */
module Mdast {
  import opened Wrappers

  /** A fenced code block: its optional language tag and its text. */
  datatype Code = Code(lang: Option<string>, value: string)

  datatype Node =
    | CodeNode(code: Code)
    | Other(children: Children)

  /**
   * What `Node::children()` returns for a non-code node: `None`, or the
   * child list. It is `Option<seq<Node>>` spelled out, so that Dafny sees
   * each child as smaller than its parent.
   */
  datatype Children = NoChildren | Children(nodes: seq<Node>)
}
