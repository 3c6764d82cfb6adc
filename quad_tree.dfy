/** The quadtree: nodes that own a rectangle, a colour and up to four
    children, and the tree object that caches the depth and node count of
    its root. Each node carries a ghost `Model`, the value of the subtree it
    heads, and the recursive measures of the source are stated on that
    value. */
module QuadTrees {
  import opened Pixels

  /** The value of a subtree: the node's rectangle, its colour and the
      values of its children in insertion order. */
  datatype Tree = Tree(x: int, y: int, width: int, height: int, color: Pixel, children: seq<Tree>)

  function Max(a: int, b: int): int
  {
    if a < b then b else a
  }

  /** `calculateDepth` on a non-null node: a leaf has depth 1, any other
      node one more than its deepest child. */
  function Depth(t: Tree): (d: nat)
    ensures d >= 1
    decreases t, |t.children| + 1
  {
    if |t.children| == 0 then 1 else 1 + MaxChildDepth(t, |t.children|)
  }

  /** The maximum depth among the first `k` children, starting from 0. */
  function MaxChildDepth(t: Tree, k: nat): nat
    requires k <= |t.children|
    decreases t, k
  {
    if k == 0 then 0 else Max(MaxChildDepth(t, k - 1), Depth(t.children[k - 1]))
  }

  /** `countNodes` on a non-null node: itself plus its descendants. */
  function Count(t: Tree): nat
    decreases t, |t.children| + 1
  {
    1 + ChildCount(t, |t.children|)
  }

  function ChildCount(t: Tree, k: nat): nat
    requires k <= |t.children|
    decreases t, k
  {
    if k == 0 then 0 else ChildCount(t, k - 1) + Count(t.children[k - 1])
  }

  /** The number of leaves reached by the depth-first `countLeaves` walk. */
  function LeafCount(t: Tree): nat
    decreases t, |t.children| + 1
  {
    if |t.children| == 0 then 1 else ChildLeaves(t, |t.children|)
  }

  function ChildLeaves(t: Tree, k: nat): nat
    requires k <= |t.children|
    decreases t, k
  {
    if k == 0 then 0 else ChildLeaves(t, k - 1) + LeafCount(t.children[k - 1])
  }

  /** The number of nodes that have children. */
  function Internal(t: Tree): nat
    decreases t, |t.children| + 1
  {
    if |t.children| == 0 then 0 else 1 + ChildInternal(t, |t.children|)
  }

  function ChildInternal(t: Tree, k: nat): nat
    requires k <= |t.children|
    decreases t, k
  {
    if k == 0 then 0 else ChildInternal(t, k - 1) + Internal(t.children[k - 1])
  }

  /** Every node has either no children or exactly four. */
  predicate FourWay(t: Tree)
  {
    (|t.children| == 0 || |t.children| == 4)
    && forall i :: 0 <= i < |t.children| ==> FourWay(t.children[i])
  }

  /** A tree is no deeper than it has nodes. */
  lemma {:induction false} DepthAtMostCount(t: Tree)
    ensures Depth(t) <= Count(t)
    decreases t, |t.children| + 1
  {
    ChildDepthAtMostCount(t, |t.children|);
  }

  lemma {:induction false} ChildDepthAtMostCount(t: Tree, k: nat)
    requires k <= |t.children|
    ensures MaxChildDepth(t, k) <= ChildCount(t, k)
    decreases t, k
  {
    if k > 0 {
      ChildDepthAtMostCount(t, k - 1);
      DepthAtMostCount(t.children[k - 1]);
    }
  }

  /** Every node is a leaf or internal. */
  lemma {:induction false} LeavesPlusInternal(t: Tree)
    ensures LeafCount(t) + Internal(t) == Count(t)
    decreases t, |t.children| + 1
  {
    ChildLeavesPlusInternal(t, |t.children|);
  }

  lemma {:induction false} ChildLeavesPlusInternal(t: Tree, k: nat)
    requires k <= |t.children|
    ensures ChildLeaves(t, k) + ChildInternal(t, k) == ChildCount(t, k)
    decreases t, k
  {
    if k > 0 {
      ChildLeavesPlusInternal(t, k - 1);
      LeavesPlusInternal(t.children[k - 1]);
    }
  }

  /** In a tree whose nodes have zero or four children, the nodes number
      1 + 4 * internal and the leaves 3 * internal + 1. */
  lemma {:induction false} FourWayCounts(t: Tree)
    requires FourWay(t)
    ensures Count(t) == 1 + 4 * Internal(t)
    ensures LeafCount(t) == 3 * Internal(t) + 1
    decreases t, |t.children| + 1
  {
    ChildFourWayCounts(t, |t.children|);
  }

  lemma {:induction false} ChildFourWayCounts(t: Tree, k: nat)
    requires k <= |t.children|
    requires forall i :: 0 <= i < |t.children| ==> FourWay(t.children[i])
    ensures ChildCount(t, k) == k + 4 * ChildInternal(t, k)
    ensures ChildLeaves(t, k) == k + 3 * ChildInternal(t, k)
    decreases t, k
  {
    if k > 0 {
      ChildFourWayCounts(t, k - 1);
      FourWayCounts(t.children[k - 1]);
    }
  }

  /** `QuadTreeNode`. The rectangle is fixed at construction (the source
      has no setter for it); the colour and the child list change. */
  class QuadTreeNode {
    const x: int
    const y: int
    const width: int
    const height: int
    var color: Pixel
    var children: seq<QuadTreeNode>

    ghost var Model: Tree
    ghost var Repr: set<QuadTreeNode>

    ghost predicate Valid()
      reads this, Repr
      decreases Repr
    {
      this in Repr && 0 < width && 0 < height && |children| <= 4
      && Model == Tree(x, y, width, height, color, Model.children) && |Model.children| == |children|
      && forall i :: 0 <= i < |children| ==>
           children[i] in Repr && children[i].Repr <= Repr && this !in children[i].Repr
           && children[i].Valid() && children[i].Model == Model.children[i]
    }

    /** The constructor: the rectangle must be non-empty (asserted by the
        source); the node starts black and childless. */
    constructor(x: int, y: int, width: int, height: int)
      requires width > 0 && height > 0
      ensures Valid() && fresh(Repr)
      ensures Model == Tree(x, y, width, height, Black(), [])
    {
      this.x := x;
      this.y := y;
      this.width := width;
      this.height := height;
      color := Black();
      children := [];
      Model := Tree(x, y, width, height, Black(), []);
      Repr := {this};
    }

    /** `isLeaf`: no children. */
    function IsLeaf(): (leaf: bool)
      requires Valid()
      reads this, Repr
      ensures leaf <==> |Model.children| == 0
    {
      |children| == 0
    }

    /** `getColor`. */
    function GetColor(): (c: Pixel)
      requires Valid()
      reads this, Repr
      ensures c == Model.color
    {
      color
    }

    /** `setColor`: only the colour changes. */
    method SetColor(newColor: Pixel)
      requires Valid()
      modifies this
      ensures Valid() && Repr == old(Repr) && children == old(children)
      ensures Model == old(Model).(color := newColor)
      ensures GetColor() == newColor
    {
      color := newColor;
      Model := Model.(color := newColor);
    }

    /** `addChild`: the child is appended when it is non-null and the node
        has fewer than four children; otherwise nothing changes. */
    method AddChild(child: QuadTreeNode?)
      requires Valid()
      requires child != null ==> child.Valid() && this !in child.Repr
      modifies this
      ensures Valid()
      ensures if child != null && |old(children)| < 4 then
                children == old(children) + [child]
                && Model == old(Model).(children := old(Model.children) + [child.Model])
                && Repr == old(Repr) + child.Repr
              else
                children == old(children) && Model == old(Model) && Repr == old(Repr)
    {
      if |children| < 4 && child != null {
        children := children + [child];
        Model := Model.(children := Model.children + [child.Model]);
        Repr := Repr + child.Repr;
        assert children[|children| - 1] == child;
      }
    }
  }

  /** The depth of a possibly null node, as `calculateDepth` returns it. */
  ghost function DepthOf(node: QuadTreeNode?): int
    reads node
  {
    if node == null then 0 else Depth(node.Model)
  }

  /** The node count of a possibly null node, as `countNodes` returns it. */
  ghost function CountOf(node: QuadTreeNode?): int
    reads node
  {
    if node == null then 0 else Count(node.Model)
  }

  /** `QuadTree`: a root and its cached depth and node count. */
  class QuadTree {
    var root: QuadTreeNode?
    var depth: int
    var nodeCount: int

    /** A fresh tree is empty. */
    constructor()
      ensures root == null && depth == 0 && nodeCount == 0
    {
      root := null;
      depth := 0;
      nodeCount := 0;
    }

    /** `setRoot`: install the root and recompute the cached measures. */
    method SetRoot(newRoot: QuadTreeNode?)
      requires newRoot != null ==> newRoot.Valid()
      modifies this
      ensures root == newRoot
      ensures depth == DepthOf(newRoot) && nodeCount == CountOf(newRoot)
      ensures depth == 0 <==> newRoot == null
      ensures nodeCount == 0 <==> newRoot == null
      ensures depth <= nodeCount
    {
      root := newRoot;
      CalculateDepthAndNodeCount();
      if newRoot != null {
        DepthAtMostCount(newRoot.Model);
      }
    }

    /** `calculateDepthAndNodeCount`: zeros for an empty tree. */
    method CalculateDepthAndNodeCount()
      requires root != null ==> root.Valid()
      modifies this
      ensures root == old(root)
      ensures depth == DepthOf(root) && nodeCount == CountOf(root)
    {
      if root != null {
        depth := CalculateDepth(root);
        nodeCount := CountNodes(root);
      } else {
        depth := 0;
        nodeCount := 0;
      }
    }

    /** `calculateDepth`: 0 for null, 1 for a leaf, otherwise one more than
        the deepest child, found by a loop over the children. */
    method CalculateDepth(node: QuadTreeNode?) returns (d: int)
      requires node != null ==> node.Valid()
      ensures node == null ==> d == 0
      ensures node != null ==> d == Depth(node.Model) && 1 <= d
      decreases if node == null then {} else node.Repr
    {
      if node == null {
        return 0;
      }
      if node.IsLeaf() {
        return 1;
      }
      var maxChildDepth := 0;
      var k := 0;
      while k < |node.children|
        invariant 0 <= k <= |node.children|
        invariant maxChildDepth == MaxChildDepth(node.Model, k)
      {
        var child := node.children[k];
        var childDepth := CalculateDepth(child);
        maxChildDepth := Max(maxChildDepth, childDepth);
        k := k + 1;
      }
      return 1 + maxChildDepth;
    }

    /** `countNodes`: 0 for null, otherwise 1 plus the counts of the
        children, summed by a loop. */
    method CountNodes(node: QuadTreeNode?) returns (count: int)
      requires node != null ==> node.Valid()
      ensures node == null ==> count == 0
      ensures node != null ==> count == Count(node.Model) && Depth(node.Model) <= count
      decreases if node == null then {} else node.Repr
    {
      if node == null {
        return 0;
      }
      DepthAtMostCount(node.Model);
      count := 1;
      var k := 0;
      while k < |node.children|
        invariant 0 <= k <= |node.children|
        invariant count == 1 + ChildCount(node.Model, k)
      {
        var child := node.children[k];
        var childCount := CountNodes(child);
        count := count + childCount;
        k := k + 1;
      }
    }
  }
}
