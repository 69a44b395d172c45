/**
 * Collection of the code blocks of a Markdown tree and their conversion to
 * segments (src/parse.rs). The tree is given; producing it from text is the
 * foreign parser's job.
 */
module Parse {
  import opened Mdast
  import Segment

  /** The code blocks of a tree, depth first, left to right, not looking inside code blocks. */
  function Flatten(node: Node): (codes: seq<Code>)
    ensures node.CodeNode? ==> codes == [node.code]
    ensures node == Other(NoChildren) ==> codes == []
    decreases node, 1
  {
    match node
    case CodeNode(c) => [c]
    case Other(NoChildren) => []
    case Other(Children(children)) => FlattenAll(children)
  }

  /** The code blocks of a list of sibling trees, in order. */
  function FlattenAll(nodes: seq<Node>): (codes: seq<Code>)
    ensures nodes == [] ==> codes == []
    decreases nodes, 0
  {
    if nodes == [] then [] else Flatten(nodes[0]) + FlattenAll(nodes[1..])
  }

  /** Siblings contribute their blocks one after the other. */
  lemma {:induction false} FlattenAllAppend(a: seq<Node>, b: seq<Node>)
    ensures FlattenAll(a + b) == FlattenAll(a) + FlattenAll(b)
    decreases |a|
  {
    if a == [] {
      assert a + b == b;
    } else {
      assert (a + b)[0] == a[0];
      assert (a + b)[1..] == a[1..] + b;
      FlattenAllAppend(a[1..], b);
    }
  }

  /** An independent description of which blocks a tree holds: the node itself, or one held by a child. */
  ghost predicate Holds(node: Node, c: Code)
    decreases node
  {
    match node
    case CodeNode(c') => c' == c
    case Other(NoChildren) => false
    case Other(Children(nodes)) => exists k :: 0 <= k < |nodes| && Holds(nodes[k], c)
  }

  /** The collected blocks are exactly the blocks the tree holds. */
  lemma {:induction false} FlattenHoldsExactly(node: Node, c: Code)
    ensures c in Flatten(node) <==> Holds(node, c)
    decreases node, 1
  {
    match node
    case CodeNode(_) =>
    case Other(NoChildren) =>
    case Other(Children(nodes)) => FlattenAllHoldsExactly(nodes, c);
  }

  lemma {:induction false} FlattenAllHoldsExactly(nodes: seq<Node>, c: Code)
    ensures c in FlattenAll(nodes) <==> exists k :: 0 <= k < |nodes| && Holds(nodes[k], c)
    decreases nodes, 0
  {
    if nodes != [] {
      FlattenHoldsExactly(nodes[0], c);
      FlattenAllHoldsExactly(nodes[1..], c);
      if c in FlattenAll(nodes[1..]) {
        var k :| 0 <= k < |nodes[1..]| && Holds(nodes[1..][k], c);
        assert Holds(nodes[k + 1], c);
      }
      if exists k :: 0 <= k < |nodes| && Holds(nodes[k], c) {
        var k :| 0 <= k < |nodes| && Holds(nodes[k], c);
        if k > 0 {
          assert Holds(nodes[1..][k - 1], c);
        }
      }
    }
  }

  /** Depth first, left to right: a node's blocks are its first children's blocks followed by the rest's. */
  lemma {:induction false} FlattenInChildOrder(a: seq<Node>, b: seq<Node>)
    ensures Flatten(Other(Children(a + b))) == Flatten(Other(Children(a))) + Flatten(Other(Children(b)))
  {
    FlattenAllAppend(a, b);
  }

  /** A lone child contributes exactly its own blocks. */
  lemma FlattenSingleChild(n: Node)
    ensures Flatten(Other(Children([n]))) == Flatten(n)
  {
    assert [n][1..] == [];
  }

  /**
   * `find_code_nodes`: walks `node`, pushing every code block onto the
   * buffer. The buffer is threaded through as a value: `buf` is its content
   * on entry, `out` on exit.
   */
  method FindCodeNodes(node: Node, buf: seq<Code>) returns (out: seq<Code>)
    ensures out == buf + Flatten(node)
    ensures buf <= out
    decreases node
  {
    match node {
      case CodeNode(c) =>
        out := buf + [c];
      case Other(children) =>
        var kids := match children case Children(ks) => ks case NoChildren => [];
        out := buf;
        var k := 0;
        while k < |kids|
          invariant 0 <= k <= |kids|
          invariant out == buf + FlattenAll(kids[..k])
        {
          assert kids[k] in kids;
          out := FindCodeNodes(kids[k], out);
          FlattenAllAppend(kids[..k], [kids[k]]);
          assert kids[..k + 1] == kids[..k] + [kids[k]];
          assert FlattenAll([kids[k]]) == Flatten(kids[k]) by {
            assert [kids[k]][1..] == [];
          }
          k := k + 1;
        }
        assert kids[..|kids|] == kids;
    }
  }

  /** `parse`, from the tree on: collect the code blocks, then build one segment from each. */
  method Parse(tree: Node) returns (segments: seq<Segment.Segment>)
    ensures |segments| == |Flatten(tree)|
    ensures forall i :: 0 <= i < |segments| ==> segments[i] == Segment.FromCode(Flatten(tree)[i])
    ensures forall i :: 0 <= i < |segments| ==> segments[i].fileName == Segment.Placeholder
  {
    var codeNodes := FindCodeNodes(tree, []);
    segments := seq(|codeNodes|, i requires 0 <= i < |codeNodes| => Segment.FromCode(codeNodes[i]));
  }
}
