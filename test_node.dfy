/**
 * The test chains: nodes linked through their `child` field, each numbered
 * from a counter shared by every node, in the order the nodes are made.
 */
module TestNodes {
  const MinInt: int := -0x8000_0000
  const MaxInt: int := 0x7FFF_FFFF

  /** The static `num` counter every new node advances. */
  class NodeCounter {
    var num: int

    constructor()
      ensures num == 0
    {
      num := 0;
    }
  }

  /** `nodes` are linked in order through `child`, and the last one's child is `last`. */
  ghost predicate Linked(nodes: seq<TestNode>, last: TestNode?)
    reads set i | 0 <= i < |nodes| :: nodes[i]
  {
    && |nodes| >= 1
    && (forall i :: 0 <= i < |nodes| - 1 ==> nodes[i].child == nodes[i + 1])
    && nodes[|nodes| - 1].child == last
  }

  /** The numbers go down along `nodes`: a node made later comes earlier. */
  ghost predicate NumberedBackwards(nodes: seq<TestNode>, top: int) {
    forall i :: 0 <= i < |nodes| ==> nodes[i].number == top - i
  }

  /** How many steps `getChild(depth)` may take: `--depth` wraps from the least `int` to the greatest. */
  function Steps(depth: int): (r: nat)
    ensures depth == MinInt ==> r == MaxInt
    ensures MinInt < depth ==> r == (if depth > 1 then depth - 1 else 0)
  {
    if depth == MinInt then MaxInt else if depth > 1 then depth - 1 else 0
  }

  /** Java's `--x` on an `int`. */
  function Decrement(x: int): (r: int)
    requires MinInt <= x <= MaxInt
    ensures MinInt <= r <= MaxInt
    ensures x == MinInt ==> r == MaxInt
    ensures x > MinInt ==> r == x - 1
  {
    if x == MinInt then MaxInt else x - 1
  }

  /**
   * How many nodes `constructList(depth, leaf)` makes: `--depth` for a leaf
   * wraps from the least `int` to the greatest, and `depth-- > 0` then
   * counts down to zero.
   */
  function ListLength(depth: int, hasLeaf: bool): (r: nat)
    requires MinInt <= depth <= MaxInt
    ensures !hasLeaf ==> r == (if depth > 0 then depth else 0)
    ensures hasLeaf && depth > MinInt ==> r == (if depth > 1 then depth - 1 else 0)
    ensures hasLeaf && depth == MinInt ==> r == MaxInt
  {
    var d := if hasLeaf then Decrement(depth) else depth;
    if d > 0 then d else 0
  }

  class TestNode {
    var child: TestNode?
    const number: int
    /** The chain this node's constructor made, itself first. */
    ghost var made: seq<TestNode>

    /**
     * A chain of `depth` nodes (one, for a depth below one, and 2^31 for
     * the least `int`, whose `depth - 1` wraps) ending in a null child. The
     * field initializer numbers this node before the rest of the chain is
     * made, and every later node gets the next number, so the numbers after
     * the first go down along the chain.
     */
    constructor(depth: int, counter: NodeCounter)
      requires MinInt <= depth <= MaxInt
      modifies counter
      ensures depth > MinInt ==> |made| == (if depth >= 1 then depth else 1)
      ensures depth == MinInt ==> |made| == MaxInt + 1
      ensures made[0] == this && Linked(made, null)
      ensures forall i :: 0 <= i < |made| ==> fresh(made[i])
      ensures number == old(counter.num) + 1 && counter.num == old(counter.num) + |made|
      ensures NumberedBackwards(made[1..], counter.num)
    {
      number := counter.num + 1;
      counter.num := counter.num + 1;
      new;
      var node, built := ConstructList(Decrement(depth), null, counter);
      child := node;
      made := [this] + built;
      assert made[1..] == built;
    }

    /**
     * A chain of `depth` nodes (two, for a depth below two) whose last node
     * is `leaf`, the nodes before it all new; with no leaf, as the
     * constructor above. The two decrements wrap at the least `int`.
     */
    constructor WithLeaf(depth: int, leaf: TestNode?, counter: NodeCounter)
      requires MinInt <= depth <= MaxInt
      modifies counter
      ensures Linked(made, leaf) && made[0] == this
      ensures forall i :: 0 <= i < |made| ==> fresh(made[i])
      ensures leaf != null && depth > MinInt + 1 ==> |made| + 1 == (if depth >= 2 then depth else 2)
      ensures leaf != null && depth == MinInt + 1 ==> |made| == MaxInt + 1
      ensures leaf != null && depth == MinInt ==> |made| == MaxInt
      ensures leaf == null && depth > MinInt ==> |made| == (if depth >= 1 then depth else 1)
      ensures leaf == null && depth == MinInt ==> |made| == MaxInt + 1
      ensures number == old(counter.num) + 1 && counter.num == old(counter.num) + |made|
      ensures NumberedBackwards(made[1..], counter.num)
    {
      number := counter.num + 1;
      counter.num := counter.num + 1;
      new;
      var node, built := ConstructList(Decrement(depth), leaf, counter);
      child := node;
      made := [this] + built;
      assert made[1..] == built;
    }

    /** A node whose child is `node`. */
    constructor Wrap(node: TestNode?, counter: NodeCounter)
      modifies counter
      ensures child == node && made == [this]
      ensures number == old(counter.num) + 1 && counter.num == number
    {
      number := counter.num + 1;
      counter.num := counter.num + 1;
      child := node;
      made := [this];
    }

    /**
     * `ListLength` new nodes: `depth` of them, one fewer when there is a
     * leaf, each the parent of the one made before it, the first one the
     * parent of `leaf`; the last one made is returned, or `leaf` when none is.
     */
    method ConstructList(depth: int, leaf: TestNode?, counter: NodeCounter) returns (node: TestNode?, ghost built: seq<TestNode>)
      requires MinInt <= depth <= MaxInt
      modifies counter
      ensures |built| == ListLength(depth, leaf != null)
      ensures counter.num == old(counter.num) + |built|
      ensures forall i :: 0 <= i < |built| ==> fresh(built[i])
      ensures NumberedBackwards(built, counter.num)
      ensures node == (if |built| == 0 then leaf else built[0])
      ensures |built| > 0 ==> Linked(built, leaf)
    {
      var d := depth;
      if leaf != null {
        d := Decrement(d);
      }
      node := leaf;
      built := [];
      while d > 0
        invariant counter.num == old(counter.num) + |built|
        invariant |built| + (if d > 0 then d else 0) == ListLength(depth, leaf != null)
        invariant forall i :: 0 <= i < |built| ==> fresh(built[i])
        invariant NumberedBackwards(built, counter.num)
        invariant node == (if |built| == 0 then leaf else built[0])
        invariant |built| > 0 ==> Linked(built, leaf)
      {
        node := new TestNode.Wrap(node, counter);
        built := [node] + built;
        d := d - 1;
      }
    }

    /**
     * Walks at most `depth - 1` children (all of them for the
     * least `int`, whose decrement wraps) and stops at the end of the chain.
     */
    method GetChild(depth: int, ghost nodes: seq<TestNode>) returns (node: TestNode)
      requires MinInt <= depth <= MaxInt
      requires Linked(nodes, null) && nodes[0] == this
      ensures node == nodes[if Steps(depth) < |nodes| - 1 then Steps(depth) else |nodes| - 1]
    {
      node := this;
      var d := depth;
      ghost var k := 0;
      while true
        invariant 0 <= k < |nodes| && node == nodes[k] && MinInt <= d <= MaxInt
        invariant node.child == (if k < |nodes| - 1 then nodes[k + 1] else null)
        invariant k <= Steps(depth)
        invariant d == MinInt ==> k == 0 && depth == MinInt
        invariant d > MinInt ==> Steps(depth) - k == (if d > 1 then d - 1 else 0)
        decreases |nodes| - k
      {
        d := Decrement(d);
        if !(d > 0 && node.child != null) {
          break;
        }
        node := node.child;
        k := k + 1;
      }
    }

    /** The first node along the chain with a null child, its last node. */
    method GetLast(ghost nodes: seq<TestNode>) returns (node: TestNode)
      requires Linked(nodes, null) && nodes[0] == this
      ensures node == nodes[|nodes| - 1] && node.child == null
    {
      node := this;
      ghost var k := 0;
      while node.child != null
        invariant 0 <= k < |nodes| && node == nodes[k]
        invariant node.child == (if k < |nodes| - 1 then nodes[k + 1] else null)
        decreases |nodes| - k
      {
        node := node.child;
        k := k + 1;
      }
    }
  }
}
