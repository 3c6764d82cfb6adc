/** The preview renderer of `GifGenerator`: frames of pixels, the clipped
    fill of one node's rectangle, the depth cut of a tree, the depth of a
    node below it, and the one-frame-per-depth loop of `generateGif`.

    Writing the frames to disk and assembling them with an external program
    are outside the model; the exit status of that program is a parameter. */
module GifGeneration {
  import opened Pixels
  import opened QuadTrees
  import opened ImageProcessing

  /** The background of a fresh frame. */
  function White(): (p: Pixel)
    ensures p.r == 255 && p.g == 255 && p.b == 255
  {
    Pixel(255, 255, 255)
  }

  /** `Frame`: a width, a height and `height` rows of `width` pixels. */
  class Frame {
    const width: int
    const height: int
    const pixels: array2<Pixel>

    /** The pixel buffer has the frame's dimensions. */
    predicate Valid()
    {
      pixels.Length0 == height && pixels.Length1 == width
    }

    /** A frame of the given size, every pixel white. */
    constructor(width: nat, height: nat)
      ensures Valid() && this.width == width && this.height == height && fresh(pixels)
      ensures forall j, i :: 0 <= j < height && 0 <= i < width ==> pixels[j, i] == White()
    {
      this.width := width;
      this.height := height;
      pixels := new Pixel[height, width]((j, i) => White());
    }
  }

  /** The colour a cell has after the node `t` is drawn over `before`. */
  function Paint(t: Tree, i: int, j: int, before: Pixel): (p: Pixel)
    ensures Contains(RectOf(t), i, j) ==> p == t.color
    ensures !Contains(RectOf(t), i, j) ==> p == before
  {
    if Contains(RectOf(t), i, j) then t.color else before
  }

  /** The colour of cell (i, j) after `renderTreeAtDepth` visits `t` at
      `currentDepth`: a leaf, or a node at the target depth, is drawn;
      above the target depth the children are rendered in order one level
      deeper; below it nothing is drawn. */
  function Render(t: Tree, targetDepth: int, currentDepth: int, i: int, j: int, before: Pixel): Pixel
    decreases t, |t.children| + 1
  {
    if |t.children| == 0 || currentDepth == targetDepth then Paint(t, i, j, before)
    else if currentDepth < targetDepth then
      RenderChildren(t, |t.children|, targetDepth, currentDepth, i, j, before)
    else before
  }

  /** The colour of cell (i, j) after the first `k` children of `t` are
      rendered one level below `currentDepth`. */
  function RenderChildren(t: Tree, k: nat, targetDepth: int, currentDepth: int, i: int, j: int, before: Pixel): Pixel
    requires k <= |t.children|
    decreases t, k
  {
    if k == 0 then before
    else Render(t.children[k - 1], targetDepth, currentDepth + 1, i, j,
                RenderChildren(t, k - 1, targetDepth, currentDepth, i, j, before))
  }

  /** The colour of cell (i, j) after every leaf of `t` is drawn, in
      depth-first order. */
  function PaintLeaves(t: Tree, i: int, j: int, before: Pixel): Pixel
    decreases t, |t.children| + 1
  {
    if |t.children| == 0 then Paint(t, i, j, before)
    else PaintChildLeaves(t, |t.children|, i, j, before)
  }

  function PaintChildLeaves(t: Tree, k: nat, i: int, j: int, before: Pixel): Pixel
    requires k <= |t.children|
    decreases t, k
  {
    if k == 0 then before
    else PaintLeaves(t.children[k - 1], i, j, PaintChildLeaves(t, k - 1, i, j, before))
  }

  /** Each child is no deeper than its parent less one. */
  lemma {:induction false} ChildDepthBound(t: Tree, n: nat, k: nat)
    requires k < n <= |t.children|
    ensures Depth(t.children[k]) <= MaxChildDepth(t, n)
    decreases n
  {
    if k < n - 1 {
      ChildDepthBound(t, n - 1, k);
    }
  }

  /** Rendering at or below the depth of the tree's deepest leaf draws
      exactly the leaves: a target depth that no internal node reaches
      cuts the tree at its leaves. */
  lemma {:induction false} DeepRenderPaintsLeaves(t: Tree, targetDepth: int, currentDepth: int,
                                                  i: int, j: int, before: Pixel)
    requires currentDepth + Depth(t) - 1 <= targetDepth
    ensures Render(t, targetDepth, currentDepth, i, j, before) == PaintLeaves(t, i, j, before)
    decreases t, |t.children| + 1
  {
    if |t.children| > 0 {
      DeepRenderChildren(t, |t.children|, targetDepth, currentDepth, i, j, before);
    }
  }

  lemma {:induction false} DeepRenderChildren(t: Tree, k: nat, targetDepth: int, currentDepth: int,
                                              i: int, j: int, before: Pixel)
    requires 0 < |t.children| && k <= |t.children|
    requires currentDepth + Depth(t) - 1 <= targetDepth
    ensures RenderChildren(t, k, targetDepth, currentDepth, i, j, before)
         == PaintChildLeaves(t, k, i, j, before)
    decreases t, k
  {
    if k > 0 {
      DeepRenderChildren(t, k - 1, targetDepth, currentDepth, i, j, before);
      ChildDepthBound(t, |t.children|, k - 1);
      DeepRenderPaintsLeaves(t.children[k - 1], targetDepth, currentDepth + 1, i, j,
                             RenderChildren(t, k - 1, targetDepth, currentDepth, i, j, before));
    }
  }

  /** The frame loop runs up to the cached depth, where a leaf counts 1,
      so its last frame and the one before it both draw just the leaves:
      the last frame repeats the one before it. */
  lemma LastTwoFramesAgree(t: Tree, i: int, j: int, before: Pixel)
    ensures Render(t, Depth(t), 0, i, j, before) == Render(t, Depth(t) - 1, 0, i, j, before)
  {
    DeepRenderPaintsLeaves(t, Depth(t), 0, i, j, before);
    DeepRenderPaintsLeaves(t, Depth(t) - 1, 0, i, j, before);
  }

  /** Rectangle `c` lies within rectangle `r`. */
  predicate Inside(c: Rect, r: Rect)
  {
    r.x <= c.x && c.x + c.width <= r.x + r.width && r.y <= c.y && c.y + c.height <= r.y + r.height
  }

  /** Every child's rectangle lies within its parent's. */
  predicate Nested(t: Tree)
  {
    forall k :: 0 <= k < |t.children| ==>
      Inside(RectOf(t.children[k]), RectOf(t)) && Nested(t.children[k])
  }

  /** The trees the builder produces are nested. */
  lemma {:induction false} BuiltTreesNest(img: Image, colorOf: Rect -> Pixel,
                                          errorOf: (int, int, int, int) -> Wrappers.Option<real>,
                                          threshold: real, minBlockSize: int, t: Tree)
    requires WellFormed(img) && t.width >= 0 && t.height >= 0
    requires BuiltShape(img, colorOf, errorOf, threshold, minBlockSize, t)
    ensures Nested(t)
  {
    forall k | 0 <= k < |t.children|
      ensures Inside(RectOf(t.children[k]), RectOf(t)) && Nested(t.children[k])
    {
      var c := t.children[k];
      assert RectOf(c) == Quadrants(RectOf(t))[k];
      BuiltTreesNest(img, colorOf, errorOf, threshold, minBlockSize, c);
    }
  }

  /** Rendering a nested tree leaves every cell outside its root
      rectangle as it was. */
  lemma {:induction false} RenderStaysInside(t: Tree, targetDepth: int, currentDepth: int,
                                             i: int, j: int, before: Pixel)
    requires Nested(t) && !Contains(RectOf(t), i, j)
    ensures Render(t, targetDepth, currentDepth, i, j, before) == before
    decreases t, |t.children| + 1
  {
    if |t.children| > 0 && currentDepth != targetDepth && currentDepth < targetDepth {
      RenderChildrenStayInside(t, |t.children|, targetDepth, currentDepth, i, j, before);
    }
  }

  lemma {:induction false} RenderChildrenStayInside(t: Tree, k: nat, targetDepth: int, currentDepth: int,
                                                    i: int, j: int, before: Pixel)
    requires k <= |t.children| && Nested(t) && !Contains(RectOf(t), i, j)
    ensures RenderChildren(t, k, targetDepth, currentDepth, i, j, before) == before
    decreases t, k
  {
    if k > 0 {
      RenderChildrenStayInside(t, k - 1, targetDepth, currentDepth, i, j, before);
      RenderStaysInside(t.children[k - 1], targetDepth, currentDepth + 1, i, j, before);
    }
  }

  /** `GifGenerator`: the root's size and the frames of the last run. */
  class GifGenerator {
    var imageWidth: int
    var imageHeight: int
    var frames: seq<Frame>

    constructor()
      ensures imageWidth == 0 && imageHeight == 0 && frames == []
    {
      imageWidth := 0;
      imageHeight := 0;
      frames := [];
    }

    /** `drawNode`: every cell of the frame inside the node's rectangle
        takes the node's colour; the loops run over the whole rectangle
        but write only cells inside the frame, and every other cell keeps
        its colour. */
    method DrawNode(frame: Frame, node: QuadTreeNode?)
      requires frame.Valid() && (node != null ==> node.Valid())
      modifies frame.pixels
      ensures forall j, i :: 0 <= j < frame.height && 0 <= i < frame.width ==>
        frame.pixels[j, i] == if node == null then old(frame.pixels[j, i])
                              else Paint(node.Model, i, j, old(frame.pixels[j, i]))
    {
      if node == null {
        return;
      }
      var color := node.GetColor();
      var x, y, width, height := node.x, node.y, node.width, node.height;
      var j := y;
      while j < y + height
        invariant y <= j <= y + height
        invariant forall jj, ii :: 0 <= jj < frame.height && 0 <= ii < frame.width ==>
          frame.pixels[jj, ii] == if y <= jj < j && x <= ii < x + width then color
                                  else old(frame.pixels[jj, ii])
      {
        var i := x;
        while i < x + width
          invariant x <= i <= x + width
          invariant forall jj, ii :: 0 <= jj < frame.height && 0 <= ii < frame.width ==>
            frame.pixels[jj, ii] == if (y <= jj < j && x <= ii < x + width) || (jj == j && x <= ii < i) then color
                                    else old(frame.pixels[jj, ii])
        {
          if j >= 0 && i >= 0 && j < frame.height && i < frame.width {
            frame.pixels[j, i] := color;
          }
          i := i + 1;
        }
        j := j + 1;
      }
    }

    /** `renderTreeAtDepth` with an explicit current depth. */
    method RenderTreeAtDepthFrom(frame: Frame, node: QuadTreeNode?, targetDepth: int, currentDepth: int)
      requires frame.Valid() && (node != null ==> node.Valid())
      modifies frame.pixels
      ensures forall j, i :: 0 <= j < frame.height && 0 <= i < frame.width ==>
        frame.pixels[j, i] == if node == null then old(frame.pixels[j, i])
                              else Render(node.Model, targetDepth, currentDepth, i, j, old(frame.pixels[j, i]))
      decreases if node == null then {} else node.Repr
    {
      if node == null {
        return;
      }
      if node.IsLeaf() || currentDepth == targetDepth {
        DrawNode(frame, node);
      } else if currentDepth < targetDepth {
        var k := 0;
        while k < |node.children|
          invariant 0 <= k <= |node.children|
          invariant forall j, i :: 0 <= j < frame.height && 0 <= i < frame.width ==>
            frame.pixels[j, i] == RenderChildren(node.Model, k, targetDepth, currentDepth, i, j, old(frame.pixels[j, i]))
        {
          RenderTreeAtDepthFrom(frame, node.children[k], targetDepth, currentDepth + 1);
          k := k + 1;
        }
      }
    }

    /** `renderTreeAtDepth(frame, node, targetDepth)`: starts at depth 0,
        so target 0 paints the root's rectangle in the root's colour, and
        a target at least the tree's depth less one paints the leaves. */
    method RenderTreeAtDepth(frame: Frame, node: QuadTreeNode?, targetDepth: int)
      requires frame.Valid() && (node != null ==> node.Valid())
      modifies frame.pixels
      ensures forall j, i :: 0 <= j < frame.height && 0 <= i < frame.width ==>
        frame.pixels[j, i] == if node == null then old(frame.pixels[j, i])
                              else Render(node.Model, targetDepth, 0, i, j, old(frame.pixels[j, i]))
      ensures node != null && targetDepth == 0 ==>
        forall j, i :: 0 <= j < frame.height && 0 <= i < frame.width ==>
          frame.pixels[j, i] == Paint(node.Model, i, j, old(frame.pixels[j, i]))
      ensures node != null && Depth(node.Model) - 1 <= targetDepth ==>
        forall j, i :: 0 <= j < frame.height && 0 <= i < frame.width ==>
          frame.pixels[j, i] == PaintLeaves(node.Model, i, j, old(frame.pixels[j, i]))
    {
      RenderTreeAtDepthFrom(frame, node, targetDepth, 0);
      if node != null && Depth(node.Model) - 1 <= targetDepth {
        forall j, i | 0 <= j < frame.height && 0 <= i < frame.width
          ensures frame.pixels[j, i] == PaintLeaves(node.Model, i, j, old(frame.pixels[j, i]))
        {
          DeepRenderPaintsLeaves(node.Model, targetDepth, 0, i, j, old(frame.pixels[j, i]));
        }
      }
    }

    /** `getNodeDepth`: 0 for null and for a leaf, otherwise one more than
        the deepest child; for a node this is `calculateDepth` less one. */
    method GetNodeDepth(node: QuadTreeNode?) returns (d: int)
      requires node != null ==> node.Valid()
      ensures node == null ==> d == 0
      ensures node != null ==> d == Depth(node.Model) - 1 && d >= 0
      decreases if node == null then {} else node.Repr
    {
      if node == null {
        return 0;
      }
      if node.IsLeaf() {
        return 0;
      }
      var maxChildDepth := 0;
      var k := 0;
      while k < |node.children|
        invariant 0 <= k <= |node.children|
        invariant maxChildDepth == if k == 0 then 0 else MaxChildDepth(node.Model, k) - 1
      {
        var childDepth := GetNodeDepth(node.children[k]);
        maxChildDepth := Max(maxChildDepth, childDepth);
        k := k + 1;
      }
      return 1 + maxChildDepth;
    }

    /** The body of the frame loop of `generateGif`: a white frame of the
        root's size with the tree rendered at `depth`. */
    method DepthFrame(root: QuadTreeNode, depth: int) returns (frame: Frame)
      requires root.Valid()
      ensures frame.Valid() && fresh(frame.pixels)
      ensures frame.width == root.width && frame.height == root.height
      ensures forall j, i :: 0 <= j < frame.height && 0 <= i < frame.width ==>
        frame.pixels[j, i] == Render(root.Model, depth, 0, i, j, White())
    {
      frame := new Frame(root.width, root.height);
      RenderTreeAtDepth(frame, root, depth);
    }

    /** The frame loop of `generateGif`: nothing for an empty tree;
        otherwise one white frame of the root's size per depth from 0 to
        the tree's cached depth, each rendered at its depth. The result is
        whether the external GIF assembler reported success. */
    method GenerateGif(tree: QuadTree, assemblerStatus: int) returns (ok: bool)
      requires tree.root != null ==> tree.root.Valid()
      modifies this
      ensures ok <==> tree.root != null && assemblerStatus == 0
      ensures tree.root == null ==>
        frames == old(frames) && imageWidth == old(imageWidth) && imageHeight == old(imageHeight)
      ensures tree.root != null ==>
        imageWidth == tree.root.width && imageHeight == tree.root.height
        && |frames| == (if tree.depth >= 0 then tree.depth + 1 else 0)
        && forall d :: 0 <= d < |frames| ==>
             frames[d].Valid() && fresh(frames[d].pixels)
             && frames[d].width == imageWidth && frames[d].height == imageHeight
             && forall j, i :: 0 <= j < imageHeight && 0 <= i < imageWidth ==>
                  frames[d].pixels[j, i] == Render(tree.root.Model, d, 0, i, j, White())
    {
      var root := tree.root;
      if root == null {
        return false;
      }
      imageWidth := root.width;
      imageHeight := root.height;
      frames := [];
      var depthLimit := tree.depth;
      var depth := 0;
      while depth <= depthLimit
        invariant imageWidth == root.width && imageHeight == root.height
        invariant if depthLimit >= 0 then 0 <= depth <= depthLimit + 1 else depth == 0
        invariant |frames| == depth
        invariant forall d :: 0 <= d < |frames| ==>
          frames[d].Valid() && fresh(frames[d].pixels)
          && frames[d].width == imageWidth && frames[d].height == imageHeight
          && forall j, i :: 0 <= j < imageHeight && 0 <= i < imageWidth ==>
               frames[d].pixels[j, i] == Render(root.Model, d, 0, i, j, White())
      {
        var frame := DepthFrame(root, depth);
        frames := frames + [frame];
        depth := depth + 1;
      }
      ok := assemblerStatus == 0;
    }
  }
}
