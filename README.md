# Quadtree image compression, modelled in Dafny

This project models the core of a quadtree image compressor. The compressor
loads an RGB image and measures how much a rectangular block varies. The
measure is variance, mean absolute deviation (MAD), maximum pixel
difference, entropy or SSIM. A block whose error exceeds a threshold is split
into four quadrants, as long as each side is at least twice the minimum block
size. Every node of the tree holds its block's average colour. The leaves
are what is saved. The model covers:

- the pixel value type;
- the compression parameters;
- the error calculators;
- the quadtree classes;
- the builder in `ImageProcessor`, with its theoretical size;
- the frame renderer of the GIF preview;
- the compression percentage;
- the logic, without the I/O, of the two console wizards that collect the
  parameters.

Modules, one per source unit:

- `Pixels` (`Pixel.hpp`) models the 8-bit channels. The `unsigned char`
  constructor wraps modulo 256.
- `Params` (`CompressionParams.hpp`) models the error-method enum and the
  default parameters.
- `Stats` holds sums, means, running minimum and maximum, squared and
  absolute deviations, and histograms over sequences of channel values. The
  calculators are specified in terms of these.
- `ErrorCalculation` (`ErrorCalculation.cpp`) models the factory, the
  channel selector and the per-channel loops. Each loop is a method proved
  against a specification function. Each `calculateError` is the mean of its
  three channels.
- `QuadTrees` (`QuadTree.cpp/.hpp`) models the node and tree classes. Each node
  carries a footprint of its descendants and a `Tree` value as its model.
- `ImageProcessing` (`ImageProcessor.cpp`) models:
  - region validity and the average colour;
  - the split test;
  - the builder, as both the recursive `Build` function and the imperative
    `ImageProcessor` class;
  - the leaf count and the theoretical size.
- `GifGeneration` (`GifGenerator.cpp`) models the clipped fill, the
  depth-cut renderer, `getNodeDepth`, and the one-frame-per-depth loop.
- `CompressionAnalysis` (`CompressionAnalyzer.cpp`) models the compression
  percentage.
- `Text` holds lower-casing, `find_last_of`, `path::extension`,
  `path::parent_path`, the y/n answer, and the read-until-accepted prompt
  loop with `FirstAccepted`, the first accepted line, which specifies it.
- `InputManagement` (`InputManager.cpp`) models the eight-page navigation
  loop, the handlers' shared read loop ("b" goes back, "clear" reads
  again), the per-page acceptance rules, the two-step GIF page, the
  confirmation page and the `validate*` checks.
- `BasicInputManagement` (`BasicInputManager.cpp`) models the
  question-by-question wizard: its image test, its threshold table, its
  acceptance rules, and the whole run over a sequence of input lines. The
  run (`Collect`, computed by the method `Ask`) is written once over a
  `Prompt`, the record of the eight questions' line tests and parses;
  `BasicPrompt` holds this wizard's own tests. Each question reads from the
  line after the previous answer to the first line its test accepts.

Double-precision arithmetic is modelled as exact `real` arithmetic. C++
integer division of the non-negative totals is floor division, which is
Dafny's `/` on those values. Pixel division by a negative divisor is written
out with truncation toward zero (`Pixels.TruncDiv`).

Where the code and its documentation disagree, the model follows the code:

- The split test compares side lengths: width and height must each be at
  least `2 * minBlockSize` (`ImageProcessor.cpp:158`). The basic wizard's
  prompt calls the minimum block size an "area"
  (`BasicInputManager.cpp:143`).
- All four children are `width/2 x height/2`. With an odd width or height,
  the last column or row of a split block belongs to no child.
  `ImageProcessing.QuadrantsTileIffEven` proves that the quadrants cover the
  block exactly when both sides are even.
- The basic wizard's image test takes the suffix from the last '.' of the
  whole path. The page wizard uses `path::extension`. So `photo.bmp` is an
  image only for the page wizard (`BasicInputManagement.BmpIsWizardOnly`).
  `dir/.png` is an image only for the basic wizard
  (`BasicInputManagement.HiddenPngIsBasicOnly`).
- The basic wizard accepts an existing `dir/.png` as input, but then takes
  the input extension with `path::extension`, which is empty for that name
  (`BasicInputManager.cpp:202-204`). The output question refuses an empty
  extension and any extension that differs from the input's
  (`BasicInputManager.cpp:222-237`), so it refuses every line and the run
  never finishes (`BasicInputManagement.HiddenPngInputNeverFinishes`).
- `generateGif` renders depths 0 through the tree's cached depth. That depth
  counts a leaf as 1, so the last two frames are identical
  (`GifGeneration.LastTwoFramesAgree`).
- `buildQuadTree` always returns a node. The early-return branch of
  `compressWithThreshold` for a null root (`ImageProcessor.cpp:322-327`) can
  therefore never run, and the model has no such branch.

## Model

| member | source | states |
|---|---|---|
| Pixels.ToByte | src/header/Pixel.hpp:11 | narrowing to `unsigned char` keeps the value modulo 256 and leaves a byte unchanged |
| Pixels.Black | src/header/Pixel.hpp:10 | the default pixel is (0,0,0) |
| Pixels.Equals | src/header/Pixel.hpp:26-28 | `==` holds exactly when all three channels agree |
| Pixels.NotEquals | src/header/Pixel.hpp:30-32 | `!=` holds exactly when the pixels differ |
| Pixels.AddCommutes | src/header/Pixel.hpp:14-16 | `+` is commutative |
| Pixels.AddChannels | src/header/Pixel.hpp:14-16 | `+` adds channel-wise modulo 256 |
| Pixels.ByteRoundTrip | src/header/Pixel.hpp:11 | on bytes, wrapping add then wrapping subtract returns the original byte |
| Pixels.SubUndoesAdd | src/header/Pixel.hpp:14-20 | `(p + q) - q == p` for every pair of pixels |
| Pixels.DivShrinks | src/header/Pixel.hpp:22-24 | for a divisor of at least 1, each channel is the floor quotient and never exceeds the original |
| Pixels.QuotientShrinks | src/header/Pixel.hpp:22-24 | C++ truncating division of a byte by a positive divisor is floor division and stays within [0, byte] |
| Pixels.NegativeQuotient | src/header/Pixel.hpp:22-24 | C++ division of a byte by a negative divisor truncates toward zero: minus the floor quotient by the divisor's magnitude, between -byte and 0 |
| Pixels.DivByNegative | src/header/Pixel.hpp:22-24 | for every pixel and negative divisor, each channel is 0 when its quotient by the magnitude is 0, and otherwise wraps to 256 minus that quotient |
| Pixels.DivByNegativeWraps | src/header/Pixel.hpp:22-24 | a negative divisor truncates toward zero and the narrowing wraps: (255,0,1)/-1 is (1,0,255) |
| Params.Default | src/header/CompressionParams.hpp:27-32 | the defaults are Variance, threshold 0, block size 1, target 0 (disabled), no GIF, and empty paths |
| Params.NamedMethodsAreOneToFive | src/header/CompressionParams.hpp:9-15 | the five named methods are exactly the values 1 to 5 |
| Stats.SumConcat | src/comps/ErrorCalculation.cpp:41-44 | the sum of a concatenation is the sum of its parts, as the row-by-row accumulation relies on |
| Stats.SumBounds | src/comps/ErrorCalculation.cpp:41-44 | a sum of bytes lies between 0 and 255 times the count |
| Stats.RunningMinIsMinimum | src/comps/ErrorCalculation.cpp:85-91 | the running minimum started at 255 is the least element of a non-empty sequence of bytes |
| Stats.RunningMaxIsMaximum | src/comps/ErrorCalculation.cpp:85-91 | the running maximum started at 0 is the greatest element of a non-empty sequence of bytes |
| Stats.SpreadZeroIffConstant | src/comps/ErrorCalculation.cpp:92 | max - min is zero exactly when all values are equal |
| Stats.SumBetweenExtremes | src/comps/ImageProcessor.cpp:225-229 | a sum lies between count times the minimum and count times the maximum |
| Stats.SumSqDevNonnegative | src/comps/ErrorCalculation.cpp:47-52 | a sum of squared deviations is non-negative |
| Stats.SumAbsDevNonnegative | src/comps/ErrorCalculation.cpp:70-73 | a sum of absolute deviations is non-negative |
| Stats.ConstantHasNoDeviation | src/comps/ErrorCalculation.cpp:46-52 | for constant values, the mean is that value and both deviation sums are zero |
| Stats.DeviationsFromMeanCancel | src/comps/ErrorCalculation.cpp:46 | signed deviations from the mean sum to zero |
| Stats.SumSqDevShift | src/comps/ErrorCalculation.cpp:47-52 | squared deviations about c equal those about m, plus 2(m−c)·Σ(v−m), plus n·(m−c)² |
| Stats.CentreMinimisesSquares | src/comps/ErrorCalculation.cpp:46-52 | a centre whose signed deviations cancel gives the least sum of squared deviations |
| Stats.MeanMinimisesSquares | src/comps/ErrorCalculation.cpp:46-52 | squared deviations about the mean are no larger than about any other centre |
| Stats.SquaresAboutMidrange | src/comps/ErrorCalculation.cpp:47-52 | for bytes, squared deviations about 127.5 are at most n·127.5² |
| Stats.VarianceAtMostQuarterRangeSquared | src/comps/BasicInputManager.cpp:76 | the variance of bytes is at most 16256.25, the top of the documented variance range |
| Stats.AbsBelowSquares | src/comps/ErrorCalculation.cpp:70-73 | 2·127.5·Σ\|v−m\| is at most the squared deviations plus n·127.5² |
| Stats.MeanAbsoluteDeviationAtMostHalfRange | src/comps/BasicInputManager.cpp:83 | the MAD of bytes is at most 127.5, the top of the documented MAD range |
| Stats.Histogram | src/comps/ErrorCalculation.cpp:101-105 | the histogram has 256 bins and bin k counts the values equal to k |
| Stats.HistogramTotal | src/comps/ErrorCalculation.cpp:101-105 | the bins of a histogram of bytes sum to the number of values |
| ErrorCalculation.MethodOf | src/comps/ErrorCalculation.cpp:8-23 | every calculator belongs to a named method |
| ErrorCalculation.CreateMatchesMethod | src/comps/ErrorCalculation.cpp:8-23 | `create` maps each named method to its calculator and back, and any other value to Variance |
| ErrorCalculation.ChannelsRebuildPixel | src/comps/ErrorCalculation.cpp:25-32 | channels 0, 1, 2 are r, g, b and rebuild the pixel; any other channel reads 0 |
| ErrorCalculation.RowValues | src/comps/ErrorCalculation.cpp:41-44 | one row's values are the selected channel of the row's cells, in loop order |
| ErrorCalculation.ValuesLength | src/comps/ErrorCalculation.cpp:41-44 | the block lists width·height values |
| ErrorCalculation.ValuesComeFromBlock | src/comps/ErrorCalculation.cpp:41-44 | every listed value is the channel value of a cell of the block |
| ErrorCalculation.BlockValuesListed | src/comps/ErrorCalculation.cpp:41-44 | every cell of the block contributes its channel value to the list |
| ErrorCalculation.UniformIffConstant | src/comps/ErrorCalculation.cpp:84-93 | a channel is uniform over the block exactly when its listed values are constant |
| ErrorCalculation.UniformBlockIffChannels | src/comps/ErrorCalculation.cpp:34-38 | a block of one colour is exactly a block uniform in all three channels |
| ErrorCalculation.MeanOfChannels | src/comps/ErrorCalculation.cpp:34-38 | the mean of the three channel errors lies between their least and greatest, and is non-negative when they are |
| ErrorCalculation.ChannelVarianceBounds | src/comps/ErrorCalculation.cpp:40-55 | a channel's variance lies in [0, 16256.25] |
| ErrorCalculation.ChannelVarianceUniform | src/comps/ErrorCalculation.cpp:40-55 | a channel uniform over the block has variance 0 |
| ErrorCalculation.BlockVarianceOfUniform | src/comps/ErrorCalculation.cpp:34-38 | a block of one colour has variance error 0 |
| ErrorCalculation.VarianceForChannel | src/comps/ErrorCalculation.cpp:40-55 | the two loops compute Σ(v−mean)²/N over the block's channel values |
| ErrorCalculation.SumChannel | src/comps/ErrorCalculation.cpp:41-44 | the first loop sums the block's channel values |
| ErrorCalculation.SumRow | src/comps/ErrorCalculation.cpp:42-43 | the inner loop adds one row's channel values to the running sum |
| ErrorCalculation.SumSqDevPass | src/comps/ErrorCalculation.cpp:47-52 | the second loop sums the squared deviations from the mean |
| ErrorCalculation.SumSqDevRow | src/comps/ErrorCalculation.cpp:48-51 | the inner loop adds one row's squared deviations |
| ErrorCalculation.VarianceError | src/comps/ErrorCalculation.cpp:34-38 | the variance error is the mean of the channel variances, lies in [0, 16256.25], and is 0 on a block of one colour |
| ErrorCalculation.ChannelMadBounds | src/comps/ErrorCalculation.cpp:63-76 | a channel's MAD lies in [0, 127.5] |
| ErrorCalculation.ChannelMadUniform | src/comps/ErrorCalculation.cpp:63-76 | a channel uniform over the block has MAD 0 |
| ErrorCalculation.MadForChannel | src/comps/ErrorCalculation.cpp:63-76 | the two loops compute Σ\|v−mean\|/N over the block's channel values |
| ErrorCalculation.SumAbsDevPass | src/comps/ErrorCalculation.cpp:70-73 | the second loop sums the absolute deviations from the mean |
| ErrorCalculation.SumAbsDevRow | src/comps/ErrorCalculation.cpp:71-72 | the inner loop adds one row's absolute deviations |
| ErrorCalculation.BlockMadOfUniform | src/comps/ErrorCalculation.cpp:57-61 | a block of one colour has MAD error 0 |
| ErrorCalculation.MadError | src/comps/ErrorCalculation.cpp:57-61 | the MAD error is the mean of the channel MADs, lies in [0, 127.5], and is 0 on a block of one colour |
| ErrorCalculation.ChannelSpreadBounds | src/comps/ErrorCalculation.cpp:84-93 | max − min lies in [0, 255] and is 0 exactly when the channel is uniform over the block |
| ErrorCalculation.MaxDiffForChannel | src/comps/ErrorCalculation.cpp:84-93 | the loop returns the block's largest minus smallest channel value |
| ErrorCalculation.MinMaxRow | src/comps/ErrorCalculation.cpp:86-90 | the inner loop folds one row into the running minimum and maximum |
| ErrorCalculation.BlockMaxDiffBounds | src/comps/ErrorCalculation.cpp:78-82 | the max-difference error of a block lies in [0, 255] and is 0 exactly when the block has one colour |
| ErrorCalculation.MaxDiffError | src/comps/ErrorCalculation.cpp:78-82 | the max-difference error is the mean of the channel spreads, lies in [0, 255], and is 0 exactly on a block of one colour |
| ErrorCalculation.HistogramAppend | src/comps/ErrorCalculation.cpp:104-105 | one more value increments exactly its own bin |
| ErrorCalculation.EntropyHistogram | src/comps/ErrorCalculation.cpp:101-105 | the loops build the block's 256-bin histogram, whose bins sum to width·height |
| ErrorCalculation.HistogramRow | src/comps/ErrorCalculation.cpp:103-105 | the inner loop adds one row's values to the histogram |
| QuadTrees.Depth | src/comps/QuadTree.cpp:39-56 | every tree has depth at least 1 |
| QuadTrees.DepthAtMostCount | src/comps/QuadTree.cpp:39-72 | the depth never exceeds the node count |
| QuadTrees.LeavesPlusInternal | src/comps/QuadTree.cpp:58-72 | leaves plus internal nodes are all the nodes |
| QuadTrees.FourWayCounts | src/comps/QuadTree.cpp:14-18 | a tree whose nodes have 0 or 4 children has 1 + 4k nodes and 3k + 1 leaves, for k internal nodes |
| QuadTrees.QuadTreeNode.constructor | src/comps/QuadTree.cpp:7-12 | a new node of positive size is black, with no children, at the given rectangle |
| QuadTrees.QuadTreeNode.IsLeaf | src/header/QuadTree.hpp:31 | a node is a leaf exactly when it has no children |
| QuadTrees.QuadTreeNode.GetColor | src/header/QuadTree.hpp:32 | returns the node's colour |
| QuadTrees.QuadTreeNode.SetColor | src/header/QuadTree.hpp:36 | changes only the colour, which `GetColor` then returns |
| QuadTrees.QuadTreeNode.AddChild | src/comps/QuadTree.cpp:14-18 | appends a non-null child while there are fewer than 4, and otherwise leaves the children unchanged; never more than 4 |
| QuadTrees.QuadTree.constructor | src/comps/QuadTree.cpp:20-22 | a new tree has a null root, depth 0 and node count 0 |
| QuadTrees.QuadTree.SetRoot | src/comps/QuadTree.cpp:24-27 | recomputes depth and node count for the new root; both are 0 exactly for a null root, and depth ≤ count |
| QuadTrees.QuadTree.CalculateDepthAndNodeCount | src/comps/QuadTree.cpp:29-37 | the cached depth and count become those of the current root |
| QuadTrees.QuadTree.CalculateDepth | src/comps/QuadTree.cpp:39-56 | null gives 0, a leaf 1, an internal node one more than its deepest child |
| QuadTrees.QuadTree.CountNodes | src/comps/QuadTree.cpp:58-72 | null gives 0, otherwise one plus the children's counts, never below the depth |
| ImageProcessing.ValidRegionIffInside | src/comps/ImageProcessor.cpp:139-144 | a region is valid exactly when it is non-empty and lies inside the image |
| ImageProcessing.ValidRegionCovers | src/comps/ImageProcessor.cpp:139-144 | a valid region can be read cell by cell and has positive sides |
| ImageProcessing.RowTotalIsSum | src/comps/ImageProcessor.cpp:217-223 | a row's running total is the sum of that row's channel values |
| ImageProcessing.BlockTotalIsSum | src/comps/ImageProcessor.cpp:217-223 | the nested loops' total is the sum of the block's channel values |
| ImageProcessing.AverageColorOfGivesAverages | src/comps/ImageProcessor.cpp:203-234 | the average-colour table gives `calculateAverageColor` for every rectangle |
| ImageProcessing.AverageColorWithinRange | src/comps/ImageProcessor.cpp:225-229 | each average channel lies between the block's least and greatest value in that channel |
| ImageProcessing.AverageOfUniformBlock | src/comps/ImageProcessor.cpp:203-234 | a block of one colour averages to that colour |
| ImageProcessing.UniformAverageChannel | src/comps/ImageProcessor.cpp:225-229 | a channel uniform over the block averages to that value |
| ImageProcessing.ShouldSubdivide | src/comps/ImageProcessor.cpp:177-201 | a split is only ever requested for a valid region |
| ImageProcessing.QuadrantsContained | src/comps/ImageProcessor.cpp:159-165 | each quadrant lies inside its parent |
| ImageProcessing.QuadrantsDisjoint | src/comps/ImageProcessor.cpp:159-165 | the four quadrants are pairwise disjoint |
| ImageProcessing.QuadrantsTileIffEven | src/comps/ImageProcessor.cpp:159-165 | the quadrants cover the parent exactly when both sides are even |
| ImageProcessing.QuadrantSizes | src/comps/ImageProcessor.cpp:158-165 | after a split test passes, each quadrant side is at least the minimum block size and strictly smaller than the parent's |
| ImageProcessing.Build | src/comps/ImageProcessor.cpp:146-175 | the node built for a rectangle has that rectangle |
| ImageProcessing.BuildHasBuiltShape | src/comps/ImageProcessor.cpp:146-175 | every built node has its block's colour, and has four children in the order TL, TR, BL, BR exactly when the split test passes |
| ImageProcessing.SplitChildren | src/comps/ImageProcessor.cpp:158-171 | a split node's children are built on the four quadrants, in order |
| ImageProcessing.BuildIsFourWay | src/comps/ImageProcessor.cpp:158-171 | every built node has 0 or 4 children |
| ImageProcessing.BuildChildrenShrink | src/comps/ImageProcessor.cpp:158-165 | every child side is at least the minimum block size and smaller than its parent's, so the recursion ends |
| ImageProcessing.BuildRegionsValid | src/comps/ImageProcessor.cpp:158-165 | a valid root region makes every node's region valid |
| ImageProcessing.BuildSplitsJustified | src/comps/ImageProcessor.cpp:155-158 | a node has children only when its error exceeds the threshold and both sides are at least twice the minimum block size |
| ImageProcessing.LeafWithoutError | src/comps/ImageProcessor.cpp:184-199 | an invalid region or a throwing calculator gives a leaf of the block's colour |
| ImageProcessing.UniformImageIsOneLeaf | src/comps/ImageProcessor.cpp:146-201 | with the variance, MAD or max-difference calculator and a non-negative threshold, an image of one colour compresses to a single leaf of that colour |
| ImageProcessing.CompressedSize | src/comps/ImageProcessor.cpp:385-390 | the size is never below the two-int header |
| ImageProcessing.BuiltTreeSize | src/comps/ImageProcessor.cpp:366-391 | a built tree with k internal nodes takes 27 + 57k bytes |
| ImageProcessing.CountLeaves | src/comps/ImageProcessor.cpp:333-346 | the walk adds the number of leaves under the node to the counter |
| ImageProcessing.ImageProcessor.constructor | src/comps/ImageProcessor.cpp:13-38 | keeps the parameters, the image and the original size; the calculator is the factory's for the configured method, and the error function computes that calculator's error on every valid region |
| ImageProcessing.ImageProcessor.CalculateAverageColor | src/comps/ImageProcessor.cpp:203-234 | black for an invalid region, otherwise the per-channel floor averages of the block |
| ImageProcessing.ImageProcessor.BuildQuadTree | src/comps/ImageProcessor.cpp:146-175 | the fresh node's model is the tree `Build` gives for the rectangle |
| ImageProcessing.ImageProcessor.Subdivide | src/comps/ImageProcessor.cpp:159-171 | the split branch gives the node the four quadrant subtrees, in order |
| ImageProcessing.ImageProcessor.BuildQuadrants | src/comps/ImageProcessor.cpp:159-165 | the four quadrants are built first, as fresh valid subtrees whose trees are the children the split prescribes |
| ImageProcessing.ImageProcessor.BuildPair | src/comps/ImageProcessor.cpp:162-165 | two consecutive quadrants are built, left then right, each a fresh valid subtree holding its built tree |
| ImageProcessing.ImageProcessor.AddQuadrants | src/comps/ImageProcessor.cpp:167-171 | the four built subtrees are added to a childless node in order, and the node's footprint grows by theirs |
| ImageProcessing.ImageProcessor.CompressWithThreshold | src/comps/ImageProcessor.cpp:310-358 | the parameters are unchanged afterwards, the leaf count is that of the tree built with the trial threshold, and the size follows from it |
| ImageProcessing.ImageProcessor.CalculateTheoricalCompressedSize | src/comps/ImageProcessor.cpp:366-391 | the size is 8 + 19 per leaf of the tree, and 8 for an empty tree |
| GifGeneration.White | src/comps/GifGenerator.cpp:48 | the background colour is (255,255,255) |
| GifGeneration.Frame.constructor | src/comps/GifGenerator.cpp:43-48 | a new frame of the given size is white everywhere |
| GifGeneration.Paint | src/comps/GifGenerator.cpp:185-189 | a cell takes the node's colour exactly when it lies in the node's rectangle |
| GifGeneration.DeepRenderPaintsLeaves | src/comps/GifGenerator.cpp:113-121 | once the target depth reaches the tree's depth, rendering paints only the leaves |
| GifGeneration.LastTwoFramesAgree | src/comps/GifGenerator.cpp:39-51 | the frames at the cached depth and one below it are identical |
| GifGeneration.BuiltTreesNest | src/comps/ImageProcessor.cpp:159-171 | every child rectangle of a built tree lies inside its parent's |
| GifGeneration.RenderStaysInside | src/comps/GifGenerator.cpp:109-122 | rendering a nested tree leaves every cell outside the root's rectangle unchanged |
| GifGeneration.GifGenerator.constructor | src/comps/GifGenerator.cpp:13-15 | a new generator has no size and no frames |
| GifGeneration.GifGenerator.DrawNode | src/comps/GifGenerator.cpp:175-191 | exactly the frame cells inside the node's rectangle take its colour, all others keep theirs, and no write leaves the frame |
| GifGeneration.GifGenerator.RenderTreeAtDepthFrom | src/comps/GifGenerator.cpp:109-122 | each cell becomes what the depth-cut rendering of the tree gives it |
| GifGeneration.GifGenerator.RenderTreeAtDepth | src/comps/GifGenerator.cpp:124-126 | renders from depth 0: target 0 paints the root's rectangle in the root's colour, and a deep enough target paints only the leaves |
| GifGeneration.GifGenerator.GetNodeDepth | src/comps/GifGenerator.cpp:163-173 | 0 for null and leaves, and otherwise `calculateDepth` less one |
| GifGeneration.GifGenerator.DepthFrame | src/comps/GifGenerator.cpp:43-51 | a fresh white frame of the root's size, rendered at the given depth |
| GifGeneration.GifGenerator.GenerateGif | src/comps/GifGenerator.cpp:20-54 | fails for an empty tree and then leaves the frames and the image size as they were; otherwise makes depth + 1 fresh frames, frame d being the white frame rendered at depth d; succeeds exactly when the root exists and the assembler succeeds |
| CompressionAnalysis.CompressionPercentage | src/comps/CompressionAnalyzer.cpp:13-18 | 0 for an empty original, otherwise the saved bytes as a percentage of the original |
| CompressionAnalysis.PercentageEndpoints | src/comps/CompressionAnalyzer.cpp:17 | no change gives 0 percent, and an empty result gives 100 percent |
| CompressionAnalysis.PercentageRange | src/comps/CompressionAnalyzer.cpp:17 | the percentage is in [0, 100] when the result is no larger, and negative when it is larger |
| CompressionAnalysis.PercentageDecreasesWithSize | src/comps/CompressionAnalyzer.cpp:17 | for a fixed original, a smaller result gives a larger percentage |
| Text.LowerChar | src/comps/InputManager.cpp:131 | `tolower` moves only 'A'..'Z', by 32 |
| Text.ToLower | src/comps/InputManager.cpp:131 | lower-casing keeps the length and lower-cases each character |
| Text.ToLowerIdempotent | src/comps/InputManager.cpp:131 | lower-casing twice is lower-casing once |
| Text.LowerCopy | src/comps/InputManager.cpp:130-131 | the in-place transform of a copy gives the lower-cased string |
| Text.LastIndexOf | src/comps/BasicInputManager.cpp:15 | `find_last_of` finds the last occurrence, or reports that there is none |
| Text.Filename | src/comps/InputManager.cpp:567 | the file name is the suffix after the last '/' and contains no '/' |
| Text.ExtensionShape | src/comps/InputManager.cpp:567 | an extension is empty or a final '.' followed by neither '.' nor '/', and it ends the path |
| Text.NoDotNoExtension | src/comps/InputManager.cpp:567 | a path without '.' has no extension |
| Text.ParentPath | src/comps/InputManager.cpp:376-381 | the parent is empty exactly when the path has no '/' |
| Text.FirstAccepted | src/comps/InputManager.cpp:128-154 | a found line is at or after the start and is accepted |
| Text.FirstAcceptedIsFirst | src/comps/InputManager.cpp:128-154 | no earlier line is accepted, and nothing is found exactly when no line is |
| Text.FirstAcceptedAt | src/comps/BasicInputManager.cpp:119-139 | the prompt loop stops at line k exactly when k is accepted and no line between the start and k is |
| Text.YesNo | src/comps/BasicInputManager.cpp:258-280 | y or yes in any case is yes, n or no is no, and anything else, the empty line included, is no answer |
| Text.ReadUntilAccepted | src/comps/BasicInputManager.cpp:119-139 | the prompt loop stops at the first accepted line |
| InputManagement.Navigate | src/comps/InputManager.cpp:62-69 | next moves forward a page; back moves back a page, except on the first page |
| InputManagement.FinishingVisitsEveryPage | src/comps/InputManager.cpp:27-71 | a run that returns used at least one handler visit per page from its start |
| InputManagement.StraightThrough | src/comps/InputManager.cpp:27-71 | answering next on every page returns the confirmation page's parameters |
| InputManagement.InputManager.constructor | src/comps/InputManager.cpp:22-23 | starts with default parameters on the input-image page |
| InputManagement.InputManager.GetCompressionParams | src/comps/InputManager.cpp:27-71 | the loop's result is the run over the handler outcomes; it returns only from a confirmed confirmation page, with its parameters |
| InputManagement.PageReplyMeaning | src/comps/InputManager.cpp:128-154 | a taken line is accepted and is neither "b" nor "clear"; going back answers a "b"; all earlier lines were "clear" or refused |
| InputManagement.ReadPageLine | src/comps/InputManager.cpp:128-154 | the handlers' read loop stops at the first line that is "b", or is not "clear" and is accepted by the page |
| InputManagement.HandlePage | src/comps/InputManager.cpp:128-154 | the handler's read loop gives the page's reply |
| InputManagement.GifPageReply | src/comps/InputManager.cpp:388-454 | a path the GIF page takes is a .gif path in an existing directory |
| InputManagement.GifPageBackMeaning | src/comps/InputManager.cpp:393-400 | the page goes back from the y/n question exactly when the first line there that is "b" or an answer is "b" |
| InputManagement.GifPageNoMeaning | src/comps/InputManager.cpp:408-413 | the page gives no GIF exactly when that first line is a no |
| InputManagement.GifPathOfChain | src/comps/InputManager.cpp:408-453 | a yes, then a first line after it that is an accepted path and not "b", makes that line the path taken |
| InputManagement.ChainOfGifPath | src/comps/InputManager.cpp:408-453 | a path is taken only after a yes, as the first line after it that is "b" or an accepted path |
| InputManagement.GifPagePathMeaning | src/comps/InputManager.cpp:388-454 | the page takes a path exactly when the first answer is yes and the path is the first line after it that is "b" or accepted, and is not "b" |
| InputManagement.GifOutcome | src/comps/InputManager.cpp:398-452 | "b" at the question changes nothing; "b" at the path leaves the GIF on; a no turns it off and a path is stored with it on, and both move on; no other parameter changes |
| InputManagement.InputManager.HandleGifOutputPathPage | src/comps/InputManager.cpp:388-454 | the handler's reply is the page's reply, its parameters are that reply's outcome, and the page does not change |
| InputManagement.ConfirmationMeaning | src/comps/InputManager.cpp:502-557 | the page waits only while every line is "clear"; the first other line decides: "b" goes back and anything else confirms |
| InputManagement.EmptyLineConfirms | src/comps/InputManager.cpp:500-556 | pressing Enter confirms |
| InputManagement.ThresholdMax | src/comps/InputManager.cpp:207-227 | the threshold bound is 8 for entropy, 1 for SSIM and 255 otherwise |
| InputManagement.IsImageFile | src/comps/InputManager.cpp:564-570 | true exactly for a lower-cased extension of .jpg, .jpeg, .png or .bmp; never for a path without '.' |
| InputManagement.OutputPathsAreImageFiles | src/comps/InputManager.cpp:376-381 | every accepted output path is an image file, but a .jpeg path is an image the output page refuses |
| InputManagement.GifPathsAreNotImages | src/comps/InputManager.cpp:444-449 | an accepted GIF path is neither an image file nor an accepted output path |
| InputManagement.PagesAgreeWithValidators | src/comps/InputManager.cpp:572-598 | an accepted input image path passes `validatePath` with existence demanded and an accepted output image path passes it without; the method and target pages agree with their validators; the threshold and block-size validators are looser than their pages |
| BasicInputManagement.IsImageFile | src/comps/BasicInputManager.cpp:14-22 | true exactly when the lower-cased suffix from the last '.' is .jpg, .jpeg or .png; false without a '.' |
| BasicInputManagement.BmpIsWizardOnly | src/comps/BasicInputManager.cpp:18-21 | a .bmp file is an image for the page wizard but not here |
| BasicInputManagement.HiddenPngIsBasicOnly | src/comps/BasicInputManager.cpp:15-21 | `dir/.png` is an image here but not for the page wizard |
| BasicInputManagement.HiddenFileHasNoExtension | src/comps/InputManager.cpp:567 | a file name that starts with its only '.' has no extension |
| BasicInputManagement.RangeFor | src/comps/BasicInputManager.cpp:71-110 | each named method has a range from 0 with the suggested value strictly inside; any other value keeps zeros |
| BasicInputManagement.RangesHoldTheErrors | src/comps/BasicInputManager.cpp:76-90 | the variance, MAD and max-difference errors of any block lie within their documented ranges |
| BasicInputManagement.SettingsOfChain | src/comps/BasicInputManager.cpp:46-197 | when lines k1 to k4 are, in turn, the first lines questions 2 to 5 accept, the settings are their parses |
| BasicInputManagement.ChainOfSettings | src/comps/BasicInputManager.cpp:46-197 | settings are taken only from lines that questions 2 to 5 accept in turn, each the first after the previous answer |
| BasicInputManagement.SettingsFromMeaning | src/comps/BasicInputManager.cpp:46-197 | questions 2 to 5 are answered exactly when each in turn finds an acceptable line, and each setting is then the parse of its line |
| BasicInputManagement.BasicSettingsAccepted | src/comps/BasicInputManager.cpp:46-197 | with this wizard's tests, the settings are a named method, a threshold in that method's range, a block size of at least 1 and a target in [0, 1] |
| BasicInputManagement.GifFrom | src/comps/BasicInputManager.cpp:253-318 | a GIF path is taken only after a yes and passes the path test; a no leaves the empty path |
| BasicInputManagement.GifFromMeaning | src/comps/BasicInputManager.cpp:253-318 | no GIF exactly when the first answer is no; a GIF at a path exactly when the first answer is yes and the path is the first acceptable line after it |
| BasicInputManagement.BasicGifAccepted | src/comps/BasicInputManager.cpp:253-318 | with this wizard's tests, a GIF path taken has the .gif extension in any case and an existing directory |
| BasicInputManagement.OutputsFrom | src/comps/BasicInputManager.cpp:199-251 | an output path taken passes the output test for the input path |
| BasicInputManagement.Collect | src/comps/BasicInputManager.cpp:29-320 | a finished run's input path passes question 1 and its output path passes question 6 for that input |
| BasicInputManagement.CollectOfChain | src/comps/BasicInputManager.cpp:29-320 | answers found in turn, each the first acceptable line after the previous answer, are the parameters returned |
| BasicInputManagement.ChainOfCollect | src/comps/BasicInputManager.cpp:29-320 | parameters are returned only from answers found in turn |
| BasicInputManagement.CollectMeaning | src/comps/BasicInputManager.cpp:29-320 | the run finishes exactly when every question in turn finds an acceptable line, and then returns those answers |
| BasicInputManagement.CollectPathsRead | src/comps/BasicInputManager.cpp:29-320 | the input and output paths returned, and the GIF path when a GIF is made, are lines that were read |
| BasicInputManagement.BasicCollected | src/comps/BasicInputManager.cpp:29-320 | with this wizard's tests, a finished run passed every question, with the output extension matching the input's |
| BasicInputManagement.HiddenPngOutputNeverAccepted | src/comps/BasicInputManager.cpp:199-237 | after the input `dir/.png`, whose extension is empty, no output path is accepted |
| BasicInputManagement.NoOutputNoRun | src/comps/BasicInputManager.cpp:199-251 | a run whose output question accepts no line for the input taken never finishes |
| BasicInputManagement.HiddenPngInputNeverFinishes | src/comps/BasicInputManager.cpp:35-237 | an existing `dir/.png` passes question 1, and then no sequence of lines finishes the run |
| BasicInputManagement.AskSettings | src/comps/BasicInputManager.cpp:46-197 | the four read loops give exactly the settings of questions 2 to 5 |
| BasicInputManagement.AskGif | src/comps/BasicInputManager.cpp:253-318 | the y/n loop and, after a yes, the path loop give exactly the GIF answers |
| BasicInputManagement.AskOutputs | src/comps/BasicInputManager.cpp:199-318 | the output-path loop and then the GIF questions give exactly their answers |
| BasicInputManagement.Ask | src/comps/BasicInputManager.cpp:29-320 | the question loops in order give exactly the run's result |
| BasicInputManagement.GetCompressionParams | src/comps/BasicInputManager.cpp:29-356 | the result is the run over this wizard's tests; a finished run passed every question, with the output extension matching the input's, and both paths are lines that were read |

## Left out

- Image loading and saving through OpenCV (`loadImage`, `saveCompressedImage`) and `getFileSize`: the pixel grid and the original file size are inputs of the model.
- `findThresholdForTargetCompression`: a floating-point interpolation search over file sizes.
- ImageProcessing.ImageProcessor.CompressWithThreshold: the returned `1 - size / originalImageSize` ratio and the console line are not modelled. The method returns the leaf count and the theoretical size from which the ratio is computed.
- The entropy sum of `-p log2 p` and the SSIM calculator: floating-point transcendental arithmetic. Only the entropy histogram is modelled. An entropy or SSIM calculator reaches the builder as the `errorOf` parameter, and `Measures` ties `errorOf` to the calculator only for variance, MAD and maximum difference.
- ErrorCalculation.EntropyHistogram: the local 256-bin array is modelled as a sequence updated one bin at a time.
- The nested loops of the error calculators are each split into an outer loop method and a row method. The row method runs the inner loop over one row with the same accumulator.
- GifGeneration.GifGenerator.GenerateGif: the temporary directory, `cv::imwrite` of each frame, and the external `convert` and `rm` commands are left out. The assembler's exit status is a parameter.
- `renderPartialDepth`: only commented-out code calls it.
- Console input and output, screen clearing, headers and footers: the wizards read a sequence of lines. `stoi`, `stod` and `filesystem::exists` are parameters. A parse that throws is `None`.
- InputManagement.InputManager.GetCompressionParams: the loop runs over one outcome per page visit, not over the handlers' own reads of one shared input. The handlers are modelled one by one: the single-loop pages by `HandlePage` with their `Accepts*` rule, the GIF page by `HandleGifOutputPathPage` with `GifOutcome`, and the confirmation page by `PageReply` with `AcceptsConfirmation`. `HandlePage` gives the reply but does not store the accepted value in `params`.
- `getStringInput`'s "help" line, which prints the commands and reads again, and its "exit" line, which ends the program (`InputManager.cpp:600-618`): the page models treat both as ordinary lines.
- NaN: the page wizard's threshold and target pages refuse only `t < min || t > max` (`InputManager.cpp:263-268`, `337-342`), so they would accept a NaN from `stod`; the basic wizard tests `t >= min && t <= max` (`BasicInputManager.cpp:129`, `186`) and refuses it. Parses are modelled as `real`, which has no NaN, so the model cannot show this difference.
- BasicInputManagement.GetCompressionParams: the closing "press Enter" line is not read. A run that runs out of lines gives `None`.
- Text.ParentPath: follows `path::parent_path` only for paths without repeated '/' separators.
- `CompressionAnalyzer::displayResults`, the other display functions and `main.cpp`: output and orchestration only.
- Reference counting and destruction through `shared_ptr`. A node's footprint `Repr` holds its descendants and never the node itself, so the structure is acyclic. As with shared pointers, one subtree may still hang under two parents.
- `sizeof(int)` is the constant 4. Integer overflow of `int` and `size_t` is not modelled. `double` is exact `real` arithmetic.
