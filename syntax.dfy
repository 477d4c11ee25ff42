/**
 * The syntax trees the analyzer walks: every node has a kind, a source span and its children
 * in document order. Only object-creation expressions (`new T(args)`) are told apart from the
 * other kinds; the argument list is absent when the creation has none (`new T { ... }`).
 */
module Syntax {
  import opened Wrappers
  import Linq

  datatype TextSpan = TextSpan(start: nat, length: nat)

  /** An argument expression. The code fix only ever builds identifiers. */
  datatype Argument = IdentifierName(identifier: string) | OtherExpression(text: string)

  datatype NodeKind =
    | ObjectCreationExpression(typeName: string, argumentList: Option<seq<Argument>>)
    | OtherNode(kind: string)

  datatype SyntaxNode = SyntaxNode(kind: NodeKind, span: TextSpan, children: seq<SyntaxNode>)

  predicate IsObjectCreation(n: SyntaxNode)
  {
    n.kind.ObjectCreationExpression?
  }

  /** `DescendantNodes()`: every node below `n` in document (pre-)order, `n` itself excluded. */
  function DescendantNodes(n: SyntaxNode): seq<SyntaxNode>
    decreases n, 1
  {
    SubtreesInOrder(n.children)
  }

  /** Each node of `ns` followed by its own descendants, left to right. */
  function SubtreesInOrder(ns: seq<SyntaxNode>): seq<SyntaxNode>
    decreases ns, 0
  {
    if ns == [] then [] else [ns[0]] + DescendantNodes(ns[0]) + SubtreesInOrder(ns[1..])
  }

  /** `root.DescendantNodes().OfType<ObjectCreationExpressionSyntax>().FirstOrDefault()`. */
  function FirstObjectCreation(root: SyntaxNode): Option<SyntaxNode>
  {
    Linq.FirstOrDefault(DescendantNodes(root), IsObjectCreation)
  }
}
