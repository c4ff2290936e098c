/**
  `find` of geo_parser.h: a depth-first search for a label. The source returns
  a pointer into the tree; here the answer is the path of child indices from
  the start node to the node found, so that it can be compared with an
  independent description of which nodes the search can reach and in what
  order. The search reads the tree and never changes it.
 */
module Search {
  import opened Tokens

  /** Child indices leading down from a node, outermost first. */
  type Path = seq<nat>

  // ---------------------------------------------------------------- the search as written

  /**
    `find(n, key)`: `n` itself when its label is `key` (whatever its kind);
    otherwise the first hit among its array children, left to right.
   */
  function Find(n: Node, key: string): (r: Option<Path>)
    ensures r.Some? ==> Match(n, r.value, key)
    ensures r == Some([]) <==> n.text == key
    decreases n, 1, 0
  {
    if n.text == key then Some([]) else FindIn(n, 0, key)
  }

  /**
    The loop over the children of `n` from the `i`-th on. Strings and
    numbers are passed over. An array child whose label is `key` is the
    answer; otherwise the search descends into it, and a miss there moves on
    to the next child.
   */
  function FindIn(n: Node, i: nat, key: string): (r: Option<Path>)
    requires i <= |n.children|
    ensures r.Some? ==> |r.value| > 0 && i <= r.value[0] && Match(n, r.value, key)
    decreases n, 0, |n.children| - i
  {
    if i == |n.children| then None
    else
      var c := n.children[i];
      if c.kind != Array then FindIn(n, i + 1, key)
      else if c.text == key then Some([i])
      else match Find(c, key)
        case Some(p) =>
          assert ([i] + p)[1..] == p;
          Some([i] + p)
        case None => FindIn(n, i + 1, key)
  }

  // ---------------------------------------------------------------- what the search can see

  /**
    The nodes the search can reach from `n`: `n` itself, and from there only
    through array children.
   */
  predicate Reachable(n: Node, p: Path)
    decreases |p|
  {
    p == [] || (p[0] < |n.children| && n.children[p[0]].kind == Array && Reachable(n.children[p[0]], p[1..]))
  }

  /** The node at the end of a reachable path. */
  function At(n: Node, p: Path): Node
    requires Reachable(n, p)
    decreases |p|
  {
    if p == [] then n else At(n.children[p[0]], p[1..])
  }

  /** A node the search can reach and whose label is `key`. */
  predicate Match(n: Node, p: Path, key: string) {
    Reachable(n, p) && At(n, p).text == key
  }

  /**
    Pre-order on paths: a node comes before everything below it, and the
    subtrees of earlier children come before those of later ones.
   */
  predicate PreOrderLe(p: Path, q: Path)
    decreases |p|
  {
    p == [] || (q != [] && (p[0] < q[0] || (p[0] == q[0] && PreOrderLe(p[1..], q[1..]))))
  }

  // ---------------------------------------------------------------- the search finds the first match

  /**
    The search answers "not found" exactly when no reachable node carries the
    label, and otherwise returns the reachable match that comes first in
    pre-order.
   */
  lemma FindIsFirstInPreOrder(n: Node, key: string)
    ensures Find(n, key).None? <==> forall q :: !Match(n, q, key)
    ensures Find(n, key).Some? ==> forall q :: Match(n, q, key) ==> PreOrderLe(Find(n, key).value, q)
  {
    forall q | Match(n, q, key)
      ensures Find(n, key).Some? && PreOrderLe(Find(n, key).value, q)
    {
      FindComplete(n, q, key);
    }
  }

  /** Every match is found, or one before it in pre-order is. */
  lemma {:induction false} FindComplete(n: Node, q: Path, key: string)
    requires Match(n, q, key)
    ensures Find(n, key).Some? && PreOrderLe(Find(n, key).value, q)
    decreases n, 1, 0
  {
    if n.text != key {
      assert q != [];
      FindInComplete(n, 0, q, key);
    }
  }

  lemma {:induction false} FindInComplete(n: Node, i: nat, q: Path, key: string)
    requires i <= |n.children|
    requires Match(n, q, key) && q != [] && i <= q[0]
    ensures FindIn(n, i, key).Some? && PreOrderLe(FindIn(n, i, key).value, q)
    decreases n, 0, |n.children| - i
  {
    var c := n.children[i];
    if c.kind != Array {
      assert q[0] != i;
      FindInComplete(n, i + 1, q, key);
    } else if c.text == key {
      assert PreOrderLe([], q[1..]);
    } else if q[0] == i {
      FindComplete(c, q[1..], key);
      var p := Find(c, key).value;
      assert ([i] + p)[1..] == p;
    } else {
      match Find(c, key)
      case Some(p) =>
      case None => FindInComplete(n, i + 1, q, key);
    }
  }
}
