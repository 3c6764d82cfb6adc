/** The quadtree builder of `ImageProcessor`: region validity, the average
    colour of a block, the subdivision test, the recursive construction of
    the tree, the leaf count and the theoretical compressed size, and the
    save-and-restore of the parameters in `compressWithThreshold`.

    The selected error calculator is represented by `errorOf`, the error it
    reports for a block of the loaded image, or `None` when it throws;
    `Measures` says which calculator's error that is. */
module ImageProcessing {
  import opened Wrappers
  import opened Pixels
  import opened Params
  import opened Stats
  import opened ErrorCalculation
  import opened QuadTrees

  /** The loaded image: `imageWidth`, `imageHeight` and the pixel rows. */
  datatype Image = Image(width: int, height: int, pixels: Grid)

  /** The pixel grid has `height` rows of `width` pixels. */
  predicate WellFormed(img: Image)
  {
    0 <= img.width && |img.pixels| == img.height
    && forall j :: 0 <= j < img.height ==> |img.pixels[j]| == img.width
  }

  /** The cell in column i, row j lies inside the image. */
  predicate InImage(img: Image, i: int, j: int)
  {
    0 <= i < img.width && 0 <= j < img.height
  }

  /** `isValidRegion`. */
  function IsValidRegion(img: Image, x: int, y: int, width: int, height: int): (valid: bool)
  {
    x >= 0 && y >= 0 && width > 0 && height > 0
    && x + width <= img.width && y + height <= img.height
  }

  /** A region is valid exactly when it is non-empty and every one of its
      cells lies inside the image. */
  lemma ValidRegionIffInside(img: Image, x: int, y: int, width: int, height: int)
    ensures IsValidRegion(img, x, y, width, height)
        <==> (width > 0 && height > 0
              && forall j, i :: y <= j < y + height && x <= i < x + width ==> InImage(img, i, j))
  {
    if width > 0 && height > 0
       && forall j, i :: y <= j < y + height && x <= i < x + width ==> InImage(img, i, j)
    {
      assert InImage(img, x, y);
      assert InImage(img, x + width - 1, y + height - 1);
    }
  }

  /** A valid region of a well-formed image is a non-empty block of its
      grid, so the error calculators can be applied to it. */
  lemma ValidRegionCovers(img: Image, x: int, y: int, width: int, height: int)
    requires WellFormed(img) && IsValidRegion(img, x, y, width, height)
    ensures Covers(img.pixels, x, y, width, height) && width >= 1 && height >= 1
  {
  }

  // ---------------------------------------------------------------------
  // Average colour

  /** The total of one channel over the first `n` cells of a row segment,
      accumulated in loop order. */
  function RowTotal(row: seq<Pixel>, x: int, n: int, channel: int): int
    requires 0 <= x && 0 <= n && x + n <= |row|
  {
    if n == 0 then 0 else RowTotal(row, x, n - 1, channel) + ChannelValue(row[x + n - 1], channel)
  }

  /** The total of one channel over the first `rows` rows of a block. */
  function BlockTotal(g: Grid, x: int, y: int, width: int, rows: int, channel: int): int
    requires Covers(g, x, y, width, rows)
  {
    if rows == 0 then 0
    else BlockTotal(g, x, y, width, rows - 1, channel) + RowTotal(g[y + rows - 1], x, width, channel)
  }

  lemma {:induction false} RowTotalIsSum(row: seq<Pixel>, x: int, n: int, channel: int)
    requires 0 <= x && 0 <= n && x + n <= |row|
    ensures RowTotal(row, x, n, channel) == Sum(RowValues(row, x, n, channel))
  {
    if n > 0 {
      RowTotalIsSum(row, x, n - 1, channel);
      FrontOfAppend(RowValues(row, x, n - 1, channel), ChannelValue(row[x + n - 1], channel));
    }
  }

  /** The loop's running total is the sum of the block's values. */
  lemma {:induction false} BlockTotalIsSum(g: Grid, x: int, y: int, width: int, rows: int, channel: int)
    requires Covers(g, x, y, width, rows)
    ensures BlockTotal(g, x, y, width, rows, channel) == Sum(Values(g, x, y, width, rows, channel))
  {
    if rows > 0 {
      BlockTotalIsSum(g, x, y, width, rows - 1, channel);
      RowTotalIsSum(g[y + rows - 1], x, width, channel);
      SumConcat(Values(g, x, y, width, rows - 1, channel), RowValues(g[y + rows - 1], x, width, channel));
    }
  }

  /** `totalC / count` for one channel of a non-empty block: the totals are
      non-negative, so C++ division is floor division here. */
  function AverageChannel(g: Grid, x: int, y: int, width: int, height: int, channel: int): int
    requires Covers(g, x, y, width, height) && width >= 1 && height >= 1
  {
    MulPositive(width, height);
    BlockTotal(g, x, y, width, height, channel) / (width * height)
  }

  /** `calculateAverageColor`: black for an invalid region, otherwise the
      per-channel averages narrowed to bytes. */
  function AverageColor(img: Image, x: int, y: int, width: int, height: int): Pixel
    requires WellFormed(img)
  {
    if !IsValidRegion(img, x, y, width, height) then Black()
    else
      ValidRegionCovers(img, x, y, width, height);
      FromInts(AverageChannel(img.pixels, x, y, width, height, 0),
               AverageChannel(img.pixels, x, y, width, height, 1),
               AverageChannel(img.pixels, x, y, width, height, 2))
  }

  /** The average colour of each rectangle of the image. */
  function AverageColorOf(img: Image): Rect -> Pixel
    requires WellFormed(img)
  {
    (r: Rect) => AverageColor(img, r.x, r.y, r.width, r.height)
  }

  /** `averages` gives the average colour of every rectangle of the image. */
  ghost predicate AveragesOf(img: Image, averages: Rect -> Pixel)
    requires WellFormed(img)
  {
    forall x, y, width, height {:trigger AverageColor(img, x, y, width, height)} ::
      averages(Rect(x, y, width, height)) == AverageColor(img, x, y, width, height)
  }

  lemma AverageColorOfGivesAverages(img: Image)
    requires WellFormed(img)
    ensures AveragesOf(img, AverageColorOf(img))
  {
  }

  lemma MulMonotone(a: int, b: int, n: int)
    requires a <= b && n >= 0
    ensures a * n <= b * n
  {
  }

  /** Integer division of a sum bounded by n copies of lo and hi stays
      within [lo, hi]. */
  lemma DivBetween(s: int, n: int, lo: int, hi: int)
    requires n > 0 && lo * n <= s <= hi * n
    ensures lo <= s / n <= hi
  {
    var q := s / n;
    assert q * n <= s < q * n + n;
    if q < lo {
      MulMonotone(q + 1, lo, n);
    }
    if q > hi {
      MulMonotone(hi + 1, q, n);
    }
  }

  /** For a valid region each channel of the average is the exact floor
      average (the narrowing to a byte never wraps) and lies between the
      smallest and the largest value of that channel in the region. */
  lemma AverageColorWithinRange(img: Image, x: int, y: int, width: int, height: int, channel: int)
    requires WellFormed(img) && IsValidRegion(img, x, y, width, height) && 0 <= channel < 3
    ensures ChannelValue(AverageColor(img, x, y, width, height), channel)
         == AverageChannel(img.pixels, x, y, width, height, channel)
    ensures RunningMin(Values(img.pixels, x, y, width, height, channel))
         <= ChannelValue(AverageColor(img, x, y, width, height), channel)
         <= RunningMax(Values(img.pixels, x, y, width, height, channel))
  {
    var s := Values(img.pixels, x, y, width, height, channel);
    ValuesLength(img.pixels, x, y, width, height, channel);
    MulPositive(width, height);
    RunningMinIsMinimum(s);
    RunningMaxIsMaximum(s);
    SumBetweenExtremes(s, RunningMin(s), RunningMax(s));
    BlockTotalIsSum(img.pixels, x, y, width, height, channel);
    DivBetween(Sum(s), width * height, RunningMin(s), RunningMax(s));
  }

  lemma DivOfMultiple(c: int, n: int)
    requires n > 0
    ensures (c * n) / n == c
  {
    DivBetween(c * n, n, c, c);
  }

  /** The average colour of a uniform block is its pixel. */
  lemma AverageOfUniformBlock(img: Image, x: int, y: int, width: int, height: int)
    requires WellFormed(img) && IsValidRegion(img, x, y, width, height)
    requires UniformBlock(img.pixels, x, y, width, height)
    ensures AverageColor(img, x, y, width, height) == img.pixels[y][x]
  {
    UniformBlockIffChannels(img.pixels, x, y, width, height);
    UniformAverageChannel(img, x, y, width, height, 0);
    UniformAverageChannel(img, x, y, width, height, 1);
    UniformAverageChannel(img, x, y, width, height, 2);
    ChannelsRebuildPixel(img.pixels[y][x], 0);
  }

  lemma UniformAverageChannel(img: Image, x: int, y: int, width: int, height: int, channel: int)
    requires WellFormed(img) && IsValidRegion(img, x, y, width, height)
    requires UniformChannel(img.pixels, x, y, width, height, channel)
    ensures AverageChannel(img.pixels, x, y, width, height, channel)
         == ChannelValue(img.pixels[y][x], channel)
  {
    var s := Values(img.pixels, x, y, width, height, channel);
    ValuesLength(img.pixels, x, y, width, height, channel);
    MulPositive(width, height);
    UniformIffConstant(img.pixels, x, y, width, height, channel);
    ConstantSum(s);
    BlockTotalIsSum(img.pixels, x, y, width, height, channel);
    DivOfMultiple(s[0], width * height);
    BlockValuesListed(img.pixels, x, y, width, height, channel);
    assert ChannelValue(img.pixels[y][x], channel) in s;
  }

  // ---------------------------------------------------------------------
  // Subdivision

  /** `shouldSubdivide`: a valid region whose error exceeds the threshold.
      An invalid region, or a calculator that throws, gives `false`. */
  function ShouldSubdivide(img: Image, errorOf: (int, int, int, int) -> Option<real>,
                           threshold: real, x: int, y: int, width: int, height: int): (divide: bool)
    ensures divide ==> IsValidRegion(img, x, y, width, height)
  {
    IsValidRegion(img, x, y, width, height)
    && match errorOf(x, y, width, height)
       case None => false
       case Some(error) => error > threshold
  }

  /** A rectangle of the image. */
  datatype Rect = Rect(x: int, y: int, width: int, height: int)

  predicate Contains(r: Rect, i: int, j: int)
  {
    r.x <= i < r.x + r.width && r.y <= j < r.y + r.height
  }

  function RectOf(t: Tree): Rect
  {
    Rect(t.x, t.y, t.width, t.height)
  }

  /** The four children's rectangles in the order they are added: top-left,
      top-right, bottom-left, bottom-right, each `width/2 x height/2`. */
  function Quadrants(r: Rect): (qs: seq<Rect>)
    ensures |qs| == 4
  {
    var hw := r.width / 2;
    var hh := r.height / 2;
    [Rect(r.x, r.y, hw, hh), Rect(r.x + hw, r.y, hw, hh),
     Rect(r.x, r.y + hh, hw, hh), Rect(r.x + hw, r.y + hh, hw, hh)]
  }

  /** Every quadrant lies inside its parent. */
  lemma QuadrantsContained(r: Rect, k: int, i: int, j: int)
    requires r.width >= 0 && r.height >= 0 && 0 <= k < 4
    requires Contains(Quadrants(r)[k], i, j)
    ensures Contains(r, i, j)
  {
  }

  /** No cell lies in two different quadrants. */
  lemma QuadrantsDisjoint(r: Rect, k1: int, k2: int, i: int, j: int)
    requires 0 <= k1 < 4 && 0 <= k2 < 4 && k1 != k2
    requires Contains(Quadrants(r)[k1], i, j)
    ensures !Contains(Quadrants(r)[k2], i, j)
  {
  }

  /** The quadrants cover every cell of the parent exactly when both sides
      are even; with an odd side the last column or row is left out. */
  lemma QuadrantsTileIffEven(r: Rect)
    requires r.width >= 1 && r.height >= 1
    ensures (forall i, j :: Contains(r, i, j) ==> exists k :: 0 <= k < 4 && Contains(Quadrants(r)[k], i, j))
        <==> (r.width % 2 == 0 && r.height % 2 == 0)
  {
    var qs := Quadrants(r);
    if r.width % 2 == 0 && r.height % 2 == 0 {
      forall i, j | Contains(r, i, j)
        ensures exists k :: 0 <= k < 4 && Contains(qs[k], i, j)
      {
        var k := (if i < r.x + r.width / 2 then 0 else 1) + (if j < r.y + r.height / 2 then 0 else 2);
        assert Contains(qs[k], i, j);
      }
    } else if r.width % 2 != 0 {
      var i, j := r.x + r.width - 1, r.y;
      assert Contains(r, i, j);
      assert forall k :: 0 <= k < 4 ==> !Contains(qs[k], i, j);
    } else {
      var i, j := r.x, r.y + r.height - 1;
      assert Contains(r, i, j);
      assert forall k :: 0 <= k < 4 ==> !Contains(qs[k], i, j);
    }
  }

  /** When the side test passes, each quadrant is at least `minBlockSize`
      on each side and strictly smaller than its parent. */
  lemma QuadrantSizes(r: Rect, minBlockSize: int, k: int)
    requires minBlockSize >= 1 && r.width >= 2 * minBlockSize && r.height >= 2 * minBlockSize
    requires 0 <= k < 4
    ensures minBlockSize <= Quadrants(r)[k].width < r.width
    ensures minBlockSize <= Quadrants(r)[k].height < r.height
  {
  }

  /** The split decision of `buildQuadTree`: the error test and the side
      test `width >= 2 * minBlockSize && height >= 2 * minBlockSize`. */
  predicate Splits(img: Image, errorOf: (int, int, int, int) -> Option<real>, threshold: real,
                   minBlockSize: int, r: Rect)
  {
    ShouldSubdivide(img, errorOf, threshold, r.x, r.y, r.width, r.height)
    && r.width >= 2 * minBlockSize && r.height >= 2 * minBlockSize
  }

  /** The tree `buildQuadTree(x, y, width, height, depth)` returns. */
  function Build(img: Image, colorOf: Rect -> Pixel, errorOf: (int, int, int, int) -> Option<real>, threshold: real,
                 minBlockSize: int, r: Rect): (t: Tree)
    requires WellFormed(img) && minBlockSize >= 1 && r.width > 0 && r.height > 0
    ensures RectOf(t) == r
    decreases r.width, 1
  {
    Tree(r.x, r.y, r.width, r.height, colorOf(r), BuildChildren(img, colorOf, errorOf, threshold, minBlockSize, r))
  }

  /** The children `buildQuadTree` gives a node: the trees of its four
      quadrants when the split test passes, none otherwise. */
  function BuildChildren(img: Image, colorOf: Rect -> Pixel, errorOf: (int, int, int, int) -> Option<real>,
                         threshold: real, minBlockSize: int, r: Rect): (kids: seq<Tree>)
    requires WellFormed(img) && minBlockSize >= 1 && r.width > 0 && r.height > 0
    decreases r.width, 0
  {
    if Splits(img, errorOf, threshold, minBlockSize, r) then
      var hw, hh := r.width / 2, r.height / 2;
      [Build(img, colorOf, errorOf, threshold, minBlockSize, Rect(r.x, r.y, hw, hh)),
       Build(img, colorOf, errorOf, threshold, minBlockSize, Rect(r.x + hw, r.y, hw, hh)),
       Build(img, colorOf, errorOf, threshold, minBlockSize, Rect(r.x, r.y + hh, hw, hh)),
       Build(img, colorOf, errorOf, threshold, minBlockSize, Rect(r.x + hw, r.y + hh, hw, hh))]
    else
      []
  }

  /** Every node of a built tree has the average colour of its rectangle;
      it has four children, the trees of its quadrants in order, exactly
      when it passes the split test, and none otherwise. */
  predicate BuiltShape(img: Image, colorOf: Rect -> Pixel, errorOf: (int, int, int, int) -> Option<real>, threshold: real,
                       minBlockSize: int, t: Tree)
    requires WellFormed(img)
  {
    t.color == colorOf(RectOf(t))
    && (if Splits(img, errorOf, threshold, minBlockSize, RectOf(t)) then
          |t.children| == 4
          && forall k :: 0 <= k < 4 ==> RectOf(t.children[k]) == Quadrants(RectOf(t))[k]
        else |t.children| == 0)
    && forall i :: 0 <= i < |t.children| ==>
         BuiltShape(img, colorOf, errorOf, threshold, minBlockSize, t.children[i])
  }

  lemma {:induction false} BuildHasBuiltShape(img: Image, colorOf: Rect -> Pixel, errorOf: (int, int, int, int) -> Option<real>,
                                              threshold: real, minBlockSize: int, r: Rect)
    requires WellFormed(img) && minBlockSize >= 1 && r.width > 0 && r.height > 0
    ensures BuiltShape(img, colorOf, errorOf, threshold, minBlockSize, Build(img, colorOf, errorOf, threshold, minBlockSize, r))
    decreases r.width
  {
    if Splits(img, errorOf, threshold, minBlockSize, r) {
      var qs := Quadrants(r);
      SplitChildren(img, colorOf, errorOf, threshold, minBlockSize, r);
      forall k | 0 <= k < 4
        ensures BuiltShape(img, colorOf, errorOf, threshold, minBlockSize, Build(img, colorOf, errorOf, threshold, minBlockSize, qs[k]))
      {
        QuadrantSizes(r, minBlockSize, k);
        BuildHasBuiltShape(img, colorOf, errorOf, threshold, minBlockSize, qs[k]);
      }
    }
  }

  /** A split node's children are the trees built on its quadrants, in
      order. */
  lemma SplitChildren(img: Image, colorOf: Rect -> Pixel, errorOf: (int, int, int, int) -> Option<real>,
                      threshold: real, minBlockSize: int, r: Rect)
    requires WellFormed(img) && minBlockSize >= 1 && r.width > 0 && r.height > 0
    requires Splits(img, errorOf, threshold, minBlockSize, r)
    ensures var qs := Quadrants(r);
      Build(img, colorOf, errorOf, threshold, minBlockSize, r).children
      == [Build(img, colorOf, errorOf, threshold, minBlockSize, qs[0]),
          Build(img, colorOf, errorOf, threshold, minBlockSize, qs[1]),
          Build(img, colorOf, errorOf, threshold, minBlockSize, qs[2]),
          Build(img, colorOf, errorOf, threshold, minBlockSize, qs[3])]
  {
  }

  /** Every node of a built tree has zero or four children. */
  lemma {:induction false} BuildIsFourWay(img: Image, colorOf: Rect -> Pixel, errorOf: (int, int, int, int) -> Option<real>,
                                          threshold: real, minBlockSize: int, r: Rect)
    requires WellFormed(img) && minBlockSize >= 1 && r.width > 0 && r.height > 0
    ensures FourWay(Build(img, colorOf, errorOf, threshold, minBlockSize, r))
    decreases r.width
  {
    if Splits(img, errorOf, threshold, minBlockSize, r) {
      var qs := Quadrants(r);
      SplitChildren(img, colorOf, errorOf, threshold, minBlockSize, r);
      forall k | 0 <= k < 4
        ensures FourWay(Build(img, colorOf, errorOf, threshold, minBlockSize, qs[k]))
      {
        QuadrantSizes(r, minBlockSize, k);
        BuildIsFourWay(img, colorOf, errorOf, threshold, minBlockSize, qs[k]);
      }
    }
  }

  /** Below the root every node is at least `minBlockSize` on each side, and
      every child is strictly smaller than its parent on both sides. */
  predicate ChildrenShrink(t: Tree, minBlockSize: int)
  {
    forall i :: 0 <= i < |t.children| ==>
      minBlockSize <= t.children[i].width < t.width
      && minBlockSize <= t.children[i].height < t.height
      && ChildrenShrink(t.children[i], minBlockSize)
  }

  lemma {:induction false} BuildChildrenShrink(img: Image, colorOf: Rect -> Pixel, errorOf: (int, int, int, int) -> Option<real>,
                                               threshold: real, minBlockSize: int, r: Rect)
    requires WellFormed(img) && minBlockSize >= 1 && r.width > 0 && r.height > 0
    ensures ChildrenShrink(Build(img, colorOf, errorOf, threshold, minBlockSize, r), minBlockSize)
    decreases r.width
  {
    if Splits(img, errorOf, threshold, minBlockSize, r) {
      var qs := Quadrants(r);
      SplitChildren(img, colorOf, errorOf, threshold, minBlockSize, r);
      forall k | 0 <= k < 4
        ensures minBlockSize <= qs[k].width < r.width && minBlockSize <= qs[k].height < r.height
        ensures ChildrenShrink(Build(img, colorOf, errorOf, threshold, minBlockSize, qs[k]), minBlockSize)
      {
        QuadrantSizes(r, minBlockSize, k);
        BuildChildrenShrink(img, colorOf, errorOf, threshold, minBlockSize, qs[k]);
      }
    }
  }

  /** Every node's region is valid. */
  predicate RegionsValid(img: Image, t: Tree)
  {
    IsValidRegion(img, t.x, t.y, t.width, t.height)
    && forall i :: 0 <= i < |t.children| ==> RegionsValid(img, t.children[i])
  }

  /** A valid root region makes every region in the tree valid. */
  lemma {:induction false} BuildRegionsValid(img: Image, colorOf: Rect -> Pixel, errorOf: (int, int, int, int) -> Option<real>,
                                             threshold: real, minBlockSize: int, r: Rect)
    requires WellFormed(img) && minBlockSize >= 1 && r.width > 0 && r.height > 0
    requires IsValidRegion(img, r.x, r.y, r.width, r.height)
    ensures RegionsValid(img, Build(img, colorOf, errorOf, threshold, minBlockSize, r))
    decreases r.width
  {
    if Splits(img, errorOf, threshold, minBlockSize, r) {
      var qs := Quadrants(r);
      SplitChildren(img, colorOf, errorOf, threshold, minBlockSize, r);
      forall k | 0 <= k < 4
        ensures RegionsValid(img, Build(img, colorOf, errorOf, threshold, minBlockSize, qs[k]))
      {
        QuadrantSizes(r, minBlockSize, k);
        BuildRegionsValid(img, colorOf, errorOf, threshold, minBlockSize, qs[k]);
      }
    }
  }

  /** Every internal node has a valid region whose error was computed and
      exceeds the threshold, and passes the side test. */
  predicate SplitsJustified(img: Image, errorOf: (int, int, int, int) -> Option<real>,
                            threshold: real, minBlockSize: int, t: Tree)
  {
    (|t.children| > 0 ==>
       IsValidRegion(img, t.x, t.y, t.width, t.height)
       && errorOf(t.x, t.y, t.width, t.height).Some?
       && errorOf(t.x, t.y, t.width, t.height).value > threshold
       && t.width >= 2 * minBlockSize && t.height >= 2 * minBlockSize)
    && forall i :: 0 <= i < |t.children| ==>
         SplitsJustified(img, errorOf, threshold, minBlockSize, t.children[i])
  }

  lemma {:induction false} BuildSplitsJustified(img: Image, colorOf: Rect -> Pixel, errorOf: (int, int, int, int) -> Option<real>,
                                                threshold: real, minBlockSize: int, r: Rect)
    requires WellFormed(img) && minBlockSize >= 1 && r.width > 0 && r.height > 0
    ensures SplitsJustified(img, errorOf, threshold, minBlockSize, Build(img, colorOf, errorOf, threshold, minBlockSize, r))
    decreases r.width
  {
    if Splits(img, errorOf, threshold, minBlockSize, r) {
      var qs := Quadrants(r);
      SplitChildren(img, colorOf, errorOf, threshold, minBlockSize, r);
      forall k | 0 <= k < 4
        ensures SplitsJustified(img, errorOf, threshold, minBlockSize, Build(img, colorOf, errorOf, threshold, minBlockSize, qs[k]))
      {
        QuadrantSizes(r, minBlockSize, k);
        BuildSplitsJustified(img, colorOf, errorOf, threshold, minBlockSize, qs[k]);
      }
    }
  }

  /** An invalid region, or a calculator that throws, gives a leaf. */
  lemma LeafWithoutError(img: Image, colorOf: Rect -> Pixel, errorOf: (int, int, int, int) -> Option<real>,
                         threshold: real, minBlockSize: int, r: Rect)
    requires WellFormed(img) && minBlockSize >= 1 && r.width > 0 && r.height > 0
    requires !IsValidRegion(img, r.x, r.y, r.width, r.height) || errorOf(r.x, r.y, r.width, r.height).None?
    ensures Build(img, colorOf, errorOf, threshold, minBlockSize, r).children == []
    ensures Build(img, colorOf, errorOf, threshold, minBlockSize, r).color == colorOf(r)
  {
  }

  /** The calculators whose `calculateError` the model computes: variance,
      MAD and maximum difference. */
  predicate Modelled(c: Calculator)
  {
    c.VarianceErrorCalculator? || c.MadErrorCalculator? || c.MaxPixelDifferenceCalculator?
  }

  /** `errorOf` is calculator `c` on this image: on every valid region it
      reports the error that `c`'s `calculateError` computes and does not
      throw. The entropy and SSIM errors are not modelled, so for those two
      calculators nothing is required. */
  ghost predicate Measures(c: Calculator, img: Image, errorOf: (int, int, int, int) -> Option<real>)
    requires WellFormed(img)
  {
    forall x, y, width, height :: IsValidRegion(img, x, y, width, height) ==>
      Covers(img.pixels, x, y, width, height)
      && match c
         case VarianceErrorCalculator =>
           errorOf(x, y, width, height) == Some(BlockVariance(img.pixels, x, y, width, height))
         case MadErrorCalculator =>
           errorOf(x, y, width, height) == Some(BlockMad(img.pixels, x, y, width, height))
         case MaxPixelDifferenceCalculator =>
           errorOf(x, y, width, height) == Some(BlockMaxDiff(img.pixels, x, y, width, height))
         case EntropyCalculator => true
         case SsimCalculator => true
  }

  /** With the variance, MAD or maximum-difference calculator and a
      non-negative threshold, an image of one colour compresses to a single
      leaf of that colour. */
  lemma UniformImageIsOneLeaf(img: Image, c: Calculator, errorOf: (int, int, int, int) -> Option<real>,
                              threshold: real, minBlockSize: int)
    requires WellFormed(img) && img.width > 0 && img.height > 0 && minBlockSize >= 1
    requires UniformBlock(img.pixels, 0, 0, img.width, img.height)
    requires Modelled(c) && Measures(c, img, errorOf) && threshold >= 0.0
    ensures Build(img, AverageColorOf(img), errorOf, threshold, minBlockSize, Rect(0, 0, img.width, img.height))
         == Tree(0, 0, img.width, img.height, img.pixels[0][0], [])
  {
    assert IsValidRegion(img, 0, 0, img.width, img.height);
    AverageOfUniformBlock(img, 0, 0, img.width, img.height);
    if c.VarianceErrorCalculator? {
      BlockVarianceOfUniform(img.pixels, 0, 0, img.width, img.height);
    } else if c.MadErrorCalculator? {
      BlockMadOfUniform(img.pixels, 0, 0, img.width, img.height);
    } else {
      BlockMaxDiffBounds(img.pixels, 0, 0, img.width, img.height);
    }
  }

  // ---------------------------------------------------------------------
  // Compressed size

  /** `sizeof(int)` on the platforms the program targets. */
  const IntSize := 4

  /** The theoretical size: a header of two ints, and per leaf four ints
      for the rectangle and three bytes for the colour. */
  function CompressedSize(leafCount: int): (size: int)
    ensures leafCount >= 0 ==> size >= 2 * IntSize
  {
    2 * IntSize + leafCount * (4 * IntSize + 3)
  }

  /** A built tree with k internal nodes takes 27 + 57 k bytes: 3k + 1 leaves
      of 19 bytes each plus the 8-byte header. */
  lemma BuiltTreeSize(img: Image, colorOf: Rect -> Pixel, errorOf: (int, int, int, int) -> Option<real>,
                      threshold: real, minBlockSize: int, r: Rect)
    requires WellFormed(img) && minBlockSize >= 1 && r.width > 0 && r.height > 0
    ensures CompressedSize(LeafCount(Build(img, colorOf, errorOf, threshold, minBlockSize, r)))
         == 27 + 57 * Internal(Build(img, colorOf, errorOf, threshold, minBlockSize, r))
  {
    BuildIsFourWay(img, colorOf, errorOf, threshold, minBlockSize, r);
    FourWayCounts(Build(img, colorOf, errorOf, threshold, minBlockSize, r));
  }

  /** The `countLeaves` walk: adds one to the counter per leaf reached. */
  method CountLeaves(node: QuadTreeNode?, leafNodes: int) returns (total: int)
    requires node != null ==> node.Valid()
    ensures total == leafNodes + (if node == null then 0 else LeafCount(node.Model))
    decreases if node == null then {} else node.Repr
  {
    if node == null {
      return leafNodes;
    }
    if node.IsLeaf() {
      return leafNodes + 1;
    }
    total := leafNodes;
    var k := 0;
    while k < |node.children|
      invariant 0 <= k <= |node.children|
      invariant total == leafNodes + ChildLeaves(node.Model, k)
    {
      total := CountLeaves(node.children[k], total);
      k := k + 1;
    }
  }

  /** `ImageProcessor`: the parameters, the loaded image, the error the
      selected calculator reports, and the original file size. */
  class ImageProcessor {
    var params: CompressionParams
    const image: Image
    const errorOf: (int, int, int, int) -> Option<real>
    const originalImageSize: int
    /** The average colour of each rectangle, `AverageColorOf(image)`. */
    ghost const averages: Rect -> Pixel
    /** The calculator `initializeErrorCalculator` chose; `errorOf` is its
        `calculateError` on the image. */
    ghost const calculator: Calculator

    /** A processor with its image already loaded. The calculator is the
        factory's for the configured method, and `errorOf` must compute
        that calculator's error. */
    constructor(params: CompressionParams, image: Image,
                errorOf: (int, int, int, int) -> Option<real>, originalImageSize: int)
      requires WellFormed(image) && Measures(Create(params.errorMethod), image, errorOf)
      ensures this.params == params && this.image == image
      ensures this.errorOf == errorOf && this.originalImageSize == originalImageSize
      ensures averages == AverageColorOf(image) && AveragesOf(image, averages)
      ensures calculator == Create(params.errorMethod) && Measures(calculator, image, errorOf)
    {
      this.params := params;
      this.image := image;
      this.errorOf := errorOf;
      this.originalImageSize := originalImageSize;
      calculator := Create(params.errorMethod);
      averages := AverageColorOf(image);
      AverageColorOfGivesAverages(image);
    }

    /** `calculateAverageColor`: totals per channel accumulated over the
        block in loop order, then divided by the pixel count. */
    method CalculateAverageColor(x: int, y: int, width: int, height: int) returns (color: Pixel)
      requires WellFormed(image)
      ensures color == AverageColor(image, x, y, width, height)
      ensures !IsValidRegion(image, x, y, width, height) ==> color == Black()
    {
      if !IsValidRegion(image, x, y, width, height) {
        return Black();
      }
      ValidRegionCovers(image, x, y, width, height);
      var g := image.pixels;
      var totalR, totalG, totalB := 0, 0, 0;
      var j := y;
      while j < y + height
        invariant y <= j <= y + height
        invariant totalR == BlockTotal(g, x, y, width, j - y, 0)
        invariant totalG == BlockTotal(g, x, y, width, j - y, 1)
        invariant totalB == BlockTotal(g, x, y, width, j - y, 2)
      {
        var i := x;
        while i < x + width
          invariant x <= i <= x + width
          invariant totalR == BlockTotal(g, x, y, width, j - y, 0) + RowTotal(g[j], x, i - x, 0)
          invariant totalG == BlockTotal(g, x, y, width, j - y, 1) + RowTotal(g[j], x, i - x, 1)
          invariant totalB == BlockTotal(g, x, y, width, j - y, 2) + RowTotal(g[j], x, i - x, 2)
        {
          var p := g[j][i];
          totalR, totalG, totalB := totalR + p.r, totalG + p.g, totalB + p.b;
          i := i + 1;
        }
        j := j + 1;
      }
      MulPositive(width, height);
      var count := width * height;
      color := FromInts(totalR / count, totalG / count, totalB / count);
    }

    /** `buildQuadTree`: a node coloured with its block's average, split into
        four quadrant subtrees, added in order, when the split test passes.
        The `depth` argument is passed down but never used. */
    method BuildQuadTree(x: int, y: int, width: int, height: int, depth: int) returns (node: QuadTreeNode)
      requires WellFormed(image) && AveragesOf(image, averages)
      requires params.minBlockSize >= 1 && width > 0 && height > 0
      ensures fresh(node.Repr) && node.Valid()
      ensures node.Model == Build(image, averages, errorOf, params.threshold, params.minBlockSize,
                                  Rect(x, y, width, height))
      decreases width, 2
    {
      node := new QuadTreeNode(x, y, width, height);
      var color := CalculateAverageColor(x, y, width, height);
      node.SetColor(color);
      var shouldDivide := ShouldSubdivide(image, errorOf, params.threshold, x, y, width, height);
      if shouldDivide && width >= 2 * params.minBlockSize && height >= 2 * params.minBlockSize {
        Subdivide(node, x, y, width, height, depth);
      }
    }

    /** The split branch of `buildQuadTree`: the four quadrant subtrees are
        built first, top-left, top-right, bottom-left, bottom-right, and
        then added to the node in that order. */
    method Subdivide(node: QuadTreeNode, x: int, y: int, width: int, height: int, depth: int)
      requires WellFormed(image) && AveragesOf(image, averages)
      requires params.minBlockSize >= 1 && width > 0 && height > 0
      requires Splits(image, errorOf, params.threshold, params.minBlockSize, Rect(x, y, width, height))
      requires node.Valid() && node.Model.children == []
      modifies node
      ensures node.Valid() && fresh(node.Repr - old(node.Repr))
      ensures node.Model == old(node.Model).(children := BuildChildren(image, averages, errorOf,
                params.threshold, params.minBlockSize, Rect(x, y, width, height)))
      decreases width, 1
    {
      var topLeft, topRight, bottomLeft, bottomRight := BuildQuadrants(x, y, width, height, depth);
      AddQuadrants(node, topLeft, topRight, bottomLeft, bottomRight);
    }

    /** `node` is a well-formed subtree holding the tree built for `r`. */
    ghost predicate BuiltFor(node: QuadTreeNode, r: Rect)
      reads this, node, node.Repr
    {
      WellFormed(image) && params.minBlockSize >= 1 && r.width > 0 && r.height > 0
      && node.Valid() && node.Model == Build(image, averages, errorOf, params.threshold, params.minBlockSize, r)
    }

    /** The four `buildQuadTree` calls of the split branch, on the halves
        of the width and height rounded down; their trees are the children
        the split prescribes. */
    method BuildQuadrants(x: int, y: int, width: int, height: int, depth: int)
      returns (topLeft: QuadTreeNode, topRight: QuadTreeNode, bottomLeft: QuadTreeNode, bottomRight: QuadTreeNode)
      requires WellFormed(image) && AveragesOf(image, averages)
      requires params.minBlockSize >= 1 && width > 0 && height > 0
      requires Splits(image, errorOf, params.threshold, params.minBlockSize, Rect(x, y, width, height))
      ensures topLeft.Valid() && fresh(topLeft.Repr) && topRight.Valid() && fresh(topRight.Repr)
      ensures bottomLeft.Valid() && fresh(bottomLeft.Repr) && bottomRight.Valid() && fresh(bottomRight.Repr)
      ensures [topLeft.Model, topRight.Model, bottomLeft.Model, bottomRight.Model]
              == BuildChildren(image, averages, errorOf, params.threshold, params.minBlockSize,
                               Rect(x, y, width, height))
      decreases width, 0
    {
      var halfWidth := width / 2;
      var halfHeight := height / 2;
      var top, topRightRect := Rect(x, y, halfWidth, halfHeight), Rect(x + halfWidth, y, halfWidth, halfHeight);
      var bottom, bottomRightRect := Rect(x, y + halfHeight, halfWidth, halfHeight),
                                     Rect(x + halfWidth, y + halfHeight, halfWidth, halfHeight);
      topLeft, topRight := BuildPair(top, topRightRect, depth + 1);
      bottomLeft, bottomRight := BuildPair(bottom, bottomRightRect, depth + 1);
    }

    /** Two consecutive `buildQuadTree` calls of the split branch, left then
        right. */
    method BuildPair(left: Rect, right: Rect, depth: int) returns (leftNode: QuadTreeNode, rightNode: QuadTreeNode)
      requires WellFormed(image) && AveragesOf(image, averages)
      requires params.minBlockSize >= 1 && left.width > 0 && left.height > 0
      requires right.width == left.width && right.height > 0
      ensures fresh(leftNode.Repr) && BuiltFor(leftNode, left)
      ensures fresh(rightNode.Repr) && BuiltFor(rightNode, right)
      decreases left.width, 3
    {
      leftNode := BuildQuadTree(left.x, left.y, left.width, left.height, depth);
      rightNode := BuildQuadTree(right.x, right.y, right.width, right.height, depth);
    }

    /** The four `addChild` calls of the split branch: each built quadrant is
        appended, in order, to a node that had no children. */
    static method AddQuadrants(node: QuadTreeNode, topLeft: QuadTreeNode, topRight: QuadTreeNode,
                               bottomLeft: QuadTreeNode, bottomRight: QuadTreeNode)
      requires node.Valid() && node.Model.children == []
      requires topLeft.Valid() && node !in topLeft.Repr
      requires topRight.Valid() && node !in topRight.Repr
      requires bottomLeft.Valid() && node !in bottomLeft.Repr
      requires bottomRight.Valid() && node !in bottomRight.Repr
      modifies node
      ensures node.Valid()
      ensures node.Repr == old(node.Repr) + topLeft.Repr + topRight.Repr + bottomLeft.Repr + bottomRight.Repr
      ensures node.Model == old(node.Model).(children := [topLeft.Model, topRight.Model,
                                                          bottomLeft.Model, bottomRight.Model])
    {
      node.AddChild(topLeft);
      node.AddChild(topRight);
      node.AddChild(bottomLeft);
      node.AddChild(bottomRight);
    }

    /** `compressWithThreshold`, up to the leaf count and the theoretical
        size: the threshold is overridden for one build and both
        parameters are restored afterwards. */
    method CompressWithThreshold(threshold: real) returns (leafNodes: int, compressedSize: int)
      requires WellFormed(image) && AveragesOf(image, averages)
      requires image.width > 0 && image.height > 0 && params.minBlockSize >= 1
      modifies this
      ensures params == old(params)
      ensures leafNodes == LeafCount(Build(image, averages, errorOf, threshold, params.minBlockSize,
                                           Rect(0, 0, image.width, image.height)))
      ensures compressedSize == CompressedSize(leafNodes)
    {
      var originalThreshold := params.threshold;
      var originalMinBlockSize := params.minBlockSize;
      params := params.(threshold := threshold);
      var testTree := new QuadTree();
      var tempRoot := BuildQuadTree(0, 0, image.width, image.height, 0);
      testTree.SetRoot(tempRoot);
      testTree.CalculateDepthAndNodeCount();
      leafNodes := CountLeaves(tempRoot, 0);
      compressedSize := CompressedSize(leafNodes);
      params := params.(threshold := originalThreshold, minBlockSize := originalMinBlockSize);
    }

    /** `calculateTheoricalCompressedSize`: the size for the leaves of the
        tree's root, with an empty tree giving just the header. */
    method CalculateTheoricalCompressedSize(tree: QuadTree) returns (size: int)
      requires tree.root != null ==> tree.root.Valid()
      ensures size == CompressedSize(if tree.root == null then 0 else LeafCount(tree.root.Model))
      ensures size >= 2 * IntSize
    {
      var leafCount := CountLeaves(tree.root, 0);
      var nodeDataSize := leafCount * (4 * IntSize + 3);
      var headerSize := IntSize * 2;
      size := headerSize + nodeDataSize;
    }
  }
}
