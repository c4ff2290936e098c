/**
  The parse tree: error kinds, node kinds and the token record of
  geo_parser.h, with the two token constructors.

  A token's `parent` back-reference is not stored: a node's parent is the node
  whose `children` holds it, so the link is implied by the tree and cannot
  disagree with it.
 */
module Tokens {
  import opened Text

  datatype Option<+T> = None | Some(value: T)

  /** The error taxonomy. `InvalidValue` and `UnclosedBrackets` are declared but never produced. */
  datatype ParserError = NoError | InvalidValue | UnclosedQuotes | UnclosedBrackets | SyntaxError

  datatype ParserType = Array | String | Primitive

  /**
    One token of the tree. `isDouble` is only meaningful for a `Primitive`;
    `children` are in the order they were attached.
   */
  datatype Node = Node(kind: ParserType, text: string, isDouble: bool, children: seq<Node>)

  /** A fresh, unattached token. Only a primitive whose text has a '.' is flagged as a double. */
  function CreateToken(kind: ParserType, text: string): (r: Node)
    ensures r.kind == kind && r.text == text
    ensures r.isDouble <==> kind == Primitive && '.' in text
    ensures r.children == []
  {
    var isDouble := kind == Primitive && FindChar(text, '.') < |text|;
    Node(kind, text, isDouble, [])
  }

  /** Overwrites the kind and label of an existing token; nothing else about it changes. */
  function UpdateToken(t: Node, kind: ParserType, text: string): (r: Node)
    ensures r.kind == kind && r.text == text
    ensures r.isDouble == t.isDouble && r.children == t.children
  {
    t.(kind := kind, text := text)
  }
}
