/** The error metrics that decide whether a block is split: a factory from the
    configured method to a calculator, channel selection, and the variance,
    mean absolute deviation and maximum-difference calculators together with
    the histogram that the entropy calculator builds. Each calculator walks
    the block row by row, left to right, exactly as the nested loops of the
    source do; `Values` lists the channel values in that order. */
module ErrorCalculation {
  import opened Pixels
  import opened Params
  import opened Stats

  /** An image as rows of pixels: `pixels[y][x]`. */
  type Grid = seq<seq<Pixel>>

  /** The block with corner (x, y) and the given size lies inside the grid. */
  predicate Covers(g: Grid, x: int, y: int, width: int, height: int)
  {
    0 <= x && 0 <= y && 0 <= width && 0 <= height && y + height <= |g|
    && forall j :: y <= j < y + height ==> x + width <= |g[j]|
  }

  /** Every cell of the block has the same value in `channel`. */
  predicate UniformChannel(g: Grid, x: int, y: int, width: int, height: int, channel: int)
    requires Covers(g, x, y, width, height) && width >= 1 && height >= 1
  {
    forall j, i :: y <= j < y + height && x <= i < x + width ==>
      ChannelValue(g[j][i], channel) == ChannelValue(g[y][x], channel)
  }

  /** Every cell of the block holds the same pixel. */
  predicate UniformBlock(g: Grid, x: int, y: int, width: int, height: int)
    requires Covers(g, x, y, width, height) && width >= 1 && height >= 1
  {
    forall j, i :: y <= j < y + height && x <= i < x + width ==> g[j][i] == g[y][x]
  }

  /** The calculators the factory can build. */
  datatype Calculator =
    | VarianceErrorCalculator
    | MadErrorCalculator
    | MaxPixelDifferenceCalculator
    | EntropyCalculator
    | SsimCalculator

  /** `ErrorCalculator::create`: one calculator per enumerator, and the
      variance calculator for any other code. */
  function Create(m: ErrorMethod): (c: Calculator)
  {
    if m == Variance then VarianceErrorCalculator
    else if m == MeanAbsoluteDeviation then MadErrorCalculator
    else if m == MaxPixelDifference then MaxPixelDifferenceCalculator
    else if m == Entropy then EntropyCalculator
    else if m == StructuralSimilarity then SsimCalculator
    else VarianceErrorCalculator
  }

  /** The enumerator each calculator implements. */
  function MethodOf(c: Calculator): (m: ErrorMethod)
    ensures IsNamedMethod(m)
  {
    match c
    case VarianceErrorCalculator => Variance
    case MadErrorCalculator => MeanAbsoluteDeviation
    case MaxPixelDifferenceCalculator => MaxPixelDifference
    case EntropyCalculator => Entropy
    case SsimCalculator => StructuralSimilarity
  }

  /** The factory is a bijection between the five enumerators and the five
      calculators, and falls back to variance outside them. */
  lemma CreateMatchesMethod(m: ErrorMethod, c: Calculator)
    ensures Create(MethodOf(c)) == c
    ensures IsNamedMethod(m) ==> MethodOf(Create(m)) == m
    ensures !IsNamedMethod(m) ==> Create(m) == VarianceErrorCalculator
  {
  }

  /** `getChannelValue`: channel 0, 1, 2 is red, green, blue; any other
      channel reads as 0. */
  function ChannelValue(p: Pixel, channel: int): (v: Byte)
  {
    if channel == 0 then p.r
    else if channel == 1 then p.g
    else if channel == 2 then p.b
    else 0
  }

  /** The three channels give the pixel back, and no other channel carries
      information. */
  lemma ChannelsRebuildPixel(p: Pixel, channel: int)
    ensures Pixel(ChannelValue(p, 0), ChannelValue(p, 1), ChannelValue(p, 2)) == p
    ensures !(0 <= channel < 3) ==> ChannelValue(p, channel) == 0
  {
  }

  /** The values of the first `n` cells of a row segment starting at `x`. */
  function RowValues(row: seq<Pixel>, x: int, n: int, channel: int): (s: seq<int>)
    requires 0 <= x && 0 <= n && x + n <= |row|
    ensures |s| == n && AllBytes(s)
    ensures forall i :: 0 <= i < n ==> s[i] == ChannelValue(row[x + i], channel)
  {
    if n == 0 then [] else RowValues(row, x, n - 1, channel) + [ChannelValue(row[x + n - 1], channel)]
  }

  /** The values of the first `rows` rows of the block, row by row. */
  function Values(g: Grid, x: int, y: int, width: int, rows: int, channel: int): (s: seq<int>)
    requires Covers(g, x, y, width, rows)
    ensures AllBytes(s)
  {
    if rows == 0 then []
    else Values(g, x, y, width, rows - 1, channel) + RowValues(g[y + rows - 1], x, width, channel)
  }

  /** The block lists one value per cell. */
  lemma {:induction false} ValuesLength(g: Grid, x: int, y: int, width: int, rows: int, channel: int)
    requires Covers(g, x, y, width, rows)
    ensures |Values(g, x, y, width, rows, channel)| == width * rows
  {
    if rows > 0 {
      ValuesLength(g, x, y, width, rows - 1, channel);
      assert width * rows == width * (rows - 1) + width;
    }
  }

  /** Starting a row adds nothing; finishing it appends the whole row. */
  lemma RowBoundaries(g: Grid, x: int, y: int, width: int, j: int, channel: int)
    requires Covers(g, x, y, width, j + 1 - y) && y <= j
    ensures Values(g, x, y, width, j - y, channel) + RowValues(g[j], x, 0, channel)
         == Values(g, x, y, width, j - y, channel)
    ensures Values(g, x, y, width, j + 1 - y, channel)
         == Values(g, x, y, width, j - y, channel) + RowValues(g[j], x, width, channel)
  {
    assert RowValues(g[j], x, 0, channel) == [];
  }

  /** One more cell of row j. */
  lemma CellStep(g: Grid, x: int, y: int, width: int, j: int, i: int, channel: int)
    requires Covers(g, x, y, width, j + 1 - y) && y <= j && x <= i < x + width
    ensures Values(g, x, y, width, j - y, channel) + RowValues(g[j], x, i + 1 - x, channel)
         == (Values(g, x, y, width, j - y, channel) + RowValues(g[j], x, i - x, channel))
            + [ChannelValue(g[j][i], channel)]
  {
  }

  /** Each value listed comes from a cell of the block. */
  lemma {:induction false} ValuesComeFromBlock(g: Grid, x: int, y: int, width: int, rows: int, channel: int)
    requires Covers(g, x, y, width, rows)
    ensures forall v :: v in Values(g, x, y, width, rows, channel) ==>
      exists j, i :: y <= j < y + rows && x <= i < x + width && v == ChannelValue(g[j][i], channel)
  {
    if rows > 0 {
      ValuesComeFromBlock(g, x, y, width, rows - 1, channel);
      var row := RowValues(g[y + rows - 1], x, width, channel);
      forall v | v in row
        ensures exists j, i :: y <= j < y + rows && x <= i < x + width && v == ChannelValue(g[j][i], channel)
      {
        var k :| 0 <= k < |row| && row[k] == v;
        assert v == ChannelValue(g[y + rows - 1][x + k], channel);
      }
    }
  }

  /** Each cell of the block contributes its value. */
  lemma {:induction false} BlockValuesListed(g: Grid, x: int, y: int, width: int, rows: int, channel: int)
    requires Covers(g, x, y, width, rows)
    ensures forall j, i :: y <= j < y + rows && x <= i < x + width ==>
      ChannelValue(g[j][i], channel) in Values(g, x, y, width, rows, channel)
  {
    if rows > 0 {
      BlockValuesListed(g, x, y, width, rows - 1, channel);
      var last := g[y + rows - 1];
      var row := RowValues(last, x, width, channel);
      forall i | x <= i < x + width
        ensures ChannelValue(last[i], channel) in row
      {
        assert row[i - x] == ChannelValue(last[i], channel);
      }
    }
  }

  /** A channel is uniform over the block exactly when its value list is
      constant. */
  lemma UniformIffConstant(g: Grid, x: int, y: int, width: int, height: int, channel: int)
    requires Covers(g, x, y, width, height) && width >= 1 && height >= 1
    ensures UniformChannel(g, x, y, width, height, channel)
        <==> Constant(Values(g, x, y, width, height, channel))
  {
    var s := Values(g, x, y, width, height, channel);
    var c := ChannelValue(g[y][x], channel);
    ValuesComeFromBlock(g, x, y, width, height, channel);
    BlockValuesListed(g, x, y, width, height, channel);
    assert s[0] in s;
    if UniformChannel(g, x, y, width, height, channel) {
      forall k | 0 <= k < |s| ensures s[k] == s[0] {
        assert s[k] in s;
      }
    }
    if Constant(s) {
      forall j, i | y <= j < y + height && x <= i < x + width
        ensures ChannelValue(g[j][i], channel) == c
      {
        var v := ChannelValue(g[j][i], channel);
        CellStep(g, x, y, width, j, i, channel);
        var k :| 0 <= k < |s| && s[k] == v;
        var k0 :| 0 <= k0 < |s| && s[k0] == c;
      }
    }
  }

  /** A block is uniform exactly when each of its three channels is. */
  lemma UniformBlockIffChannels(g: Grid, x: int, y: int, width: int, height: int)
    requires Covers(g, x, y, width, height) && width >= 1 && height >= 1
    ensures UniformBlock(g, x, y, width, height)
        <==> (UniformChannel(g, x, y, width, height, 0)
              && UniformChannel(g, x, y, width, height, 1)
              && UniformChannel(g, x, y, width, height, 2))
  {
    if UniformChannel(g, x, y, width, height, 0)
       && UniformChannel(g, x, y, width, height, 1)
       && UniformChannel(g, x, y, width, height, 2)
    {
      forall j, i | y <= j < y + height && x <= i < x + width
        ensures g[j][i] == g[y][x]
      {
        ChannelsRebuildPixel(g[j][i], 0);
        ChannelsRebuildPixel(g[y][x], 0);
      }
    }
  }

  /** The `calculateError` combinator: the mean of the three channel scores.
      It lies between the smallest and the largest score and, for
      non-negative scores, is zero exactly when all three are. */
  function MeanOfChannels(a: real, b: real, c: real): (m: real)
    ensures (a <= b && a <= c ==> a <= m) && (a >= b && a >= c ==> m <= a)
    ensures (b <= a && b <= c ==> b <= m) && (b >= a && b >= c ==> m <= b)
    ensures (c <= a && c <= b ==> c <= m) && (c >= a && c >= b ==> m <= c)
    ensures a >= 0.0 && b >= 0.0 && c >= 0.0 ==>
      (m >= 0.0 && (m == 0.0 <==> a == 0.0 && b == 0.0 && c == 0.0))
  {
    (a + b + c) / 3.0
  }

  // ---------------------------------------------------------------------
  // Variance

  /** The population variance of one channel over the block. */
  function ChannelVariance(g: Grid, x: int, y: int, width: int, height: int, channel: int): real
    requires Covers(g, x, y, width, height) && width >= 1 && height >= 1
  {
    var s := Values(g, x, y, width, height, channel);
    SumSqDev(s, Mean(s)) / |s| as real
  }

  /** The variance of a byte channel lies in [0, 127.5^2]. */
  lemma ChannelVarianceBounds(g: Grid, x: int, y: int, width: int, height: int, channel: int)
    requires Covers(g, x, y, width, height) && width >= 1 && height >= 1
    ensures 0.0 <= ChannelVariance(g, x, y, width, height, channel) <= 16256.25
  {
    ValuesLength(g, x, y, width, height, channel);
    MulPositive(width, height);
    VarianceAtMostQuarterRangeSquared(Values(g, x, y, width, height, channel));
  }

  /** The variance of a uniform channel is zero. */
  lemma ChannelVarianceUniform(g: Grid, x: int, y: int, width: int, height: int, channel: int)
    requires Covers(g, x, y, width, height) && width >= 1 && height >= 1
    requires UniformChannel(g, x, y, width, height, channel)
    ensures ChannelVariance(g, x, y, width, height, channel) == 0.0
  {
    ValuesLength(g, x, y, width, height, channel);
    MulPositive(width, height);
    UniformIffConstant(g, x, y, width, height, channel);
    ConstantHasNoDeviation(Values(g, x, y, width, height, channel));
  }

  /** The variance error of a block: the mean of its three channel
      variances. */
  function BlockVariance(g: Grid, x: int, y: int, width: int, height: int): real
    requires Covers(g, x, y, width, height) && width >= 1 && height >= 1
  {
    MeanOfChannels(ChannelVariance(g, x, y, width, height, 0),
                   ChannelVariance(g, x, y, width, height, 1),
                   ChannelVariance(g, x, y, width, height, 2))
  }

  /** A block of one colour has no variance error. */
  lemma BlockVarianceOfUniform(g: Grid, x: int, y: int, width: int, height: int)
    requires Covers(g, x, y, width, height) && width >= 1 && height >= 1
    requires UniformBlock(g, x, y, width, height)
    ensures BlockVariance(g, x, y, width, height) == 0.0
  {
    UniformBlockIffChannels(g, x, y, width, height);
    ChannelVarianceUniform(g, x, y, width, height, 0);
    ChannelVarianceUniform(g, x, y, width, height, 1);
    ChannelVarianceUniform(g, x, y, width, height, 2);
  }

  lemma MulPositive(a: int, b: int)
    requires a >= 1 && b >= 1
    ensures a * b >= 1
  {
  }

  /** `calculateVarianceForChannel`: the sum pass, then the sum of squared
      deviations from the mean, divided by the block's area. */
  method VarianceForChannel(g: Grid, x: int, y: int, width: int, height: int, channel: int)
    returns (variance: real)
    requires Covers(g, x, y, width, height) && width >= 1 && height >= 1
    ensures variance == ChannelVariance(g, x, y, width, height, channel)
  {
    var sum := SumChannel(g, x, y, width, height, channel);
    ValuesLength(g, x, y, width, height, channel);
    MulPositive(width, height);
    var mean := sum / (width * height) as real;
    var total := SumSqDevPass(g, x, y, width, height, channel, mean);
    variance := total / (width * height) as real;
  }

  /** The second pass of `calculateVarianceForChannel`: the sum of squared deviations
      from `mean`, in loop order. */
  method SumSqDevPass(g: Grid, x: int, y: int, width: int, height: int, channel: int, mean: real)
    returns (total: real)
    requires Covers(g, x, y, width, height)
    ensures total == SumSqDev(Values(g, x, y, width, height, channel), mean)
  {
    total := 0.0;
    ghost var seen: seq<int> := [];
    var j := y;
    while j < y + height
      invariant y <= j <= y + height
      invariant seen == Values(g, x, y, width, j - y, channel)
      invariant total == SumSqDev(seen, mean)
    {
      RowBoundaries(g, x, y, width, j, channel);
      total := SumSqDevRow(g[j], x, width, channel, mean, seen, total);
      seen := seen + RowValues(g[j], x, width, channel);
      j := j + 1;
    }
  }

  /** The inner loop of the squared-deviation pass over one row. */
  method SumSqDevRow(row: seq<Pixel>, x: int, width: int, channel: int, mean: real,
                     ghost seen: seq<int>, total: real)
    returns (total': real)
    requires 0 <= x && 0 <= width && x + width <= |row|
    requires total == SumSqDev(seen, mean)
    ensures total' == SumSqDev(seen + RowValues(row, x, width, channel), mean)
  {
    total' := total;
    RowStart(row, x, channel, seen);
    var i := x;
    while i < x + width
      invariant x <= i <= x + width
      invariant total' == SumSqDev(seen + RowValues(row, x, i - x, channel), mean)
    {
      var v := ChannelValue(row[i], channel);
      RowStep(row, x, i, channel, seen);
      SumSqDevAppend(seen + RowValues(row, x, i - x, channel), v, mean);
      var diff := v as real - mean;
      total' := total' + Square(diff);
      i := i + 1;
    }
  }

  /** The first pass shared by variance and MAD: the sum of the channel over
      the block, in loop order. */
  method SumChannel(g: Grid, x: int, y: int, width: int, height: int, channel: int)
    returns (sum: real)
    requires Covers(g, x, y, width, height)
    ensures sum == Sum(Values(g, x, y, width, height, channel)) as real
  {
    sum := 0.0;
    ghost var seen: seq<int> := [];
    var j := y;
    while j < y + height
      invariant y <= j <= y + height
      invariant seen == Values(g, x, y, width, j - y, channel)
      invariant sum == Sum(seen) as real
    {
      RowBoundaries(g, x, y, width, j, channel);
      sum := SumRow(g[j], x, width, channel, seen, sum);
      seen := seen + RowValues(g[j], x, width, channel);
      j := j + 1;
    }
  }

  /** The inner loop of the sum pass: row `row` from column `x` on, added to
      the running sum of the values `seen` before it. */
  method SumRow(row: seq<Pixel>, x: int, width: int, channel: int, ghost seen: seq<int>, sum: real)
    returns (sum': real)
    requires 0 <= x && 0 <= width && x + width <= |row|
    requires sum == Sum(seen) as real
    ensures sum' == Sum(seen + RowValues(row, x, width, channel)) as real
  {
    sum' := sum;
    RowStart(row, x, channel, seen);
    var i := x;
    while i < x + width
      invariant x <= i <= x + width
      invariant sum' == Sum(seen + RowValues(row, x, i - x, channel)) as real
    {
      var v := ChannelValue(row[i], channel);
      RowStep(row, x, i, channel, seen);
      FrontOfAppend(seen + RowValues(row, x, i - x, channel), v);
      sum' := sum' + v as real;
      i := i + 1;
    }
  }

  /** No cell of a row yet: nothing after the values `seen`. */
  lemma RowStart(row: seq<Pixel>, x: int, channel: int, seen: seq<int>)
    requires 0 <= x <= |row|
    ensures seen + RowValues(row, x, 0, channel) == seen
  {
  }

  /** One more cell of a row, after the values `seen`. */
  lemma RowStep(row: seq<Pixel>, x: int, i: int, channel: int, seen: seq<int>)
    requires 0 <= x <= i < |row|
    ensures seen + RowValues(row, x, i + 1 - x, channel)
         == (seen + RowValues(row, x, i - x, channel)) + [ChannelValue(row[i], channel)]
  {
  }

  /** `VarianceErrorCalculator::calculateError`. */
  method VarianceError(g: Grid, x: int, y: int, width: int, height: int) returns (error: real)
    requires Covers(g, x, y, width, height) && width >= 1 && height >= 1
    ensures error == BlockVariance(g, x, y, width, height)
    ensures 0.0 <= error <= 16256.25
    ensures UniformBlock(g, x, y, width, height) ==> error == 0.0
  {
    var r := VarianceForChannel(g, x, y, width, height, 0);
    var gr := VarianceForChannel(g, x, y, width, height, 1);
    var b := VarianceForChannel(g, x, y, width, height, 2);
    ChannelVarianceBounds(g, x, y, width, height, 0);
    ChannelVarianceBounds(g, x, y, width, height, 1);
    ChannelVarianceBounds(g, x, y, width, height, 2);
    if UniformBlock(g, x, y, width, height) {
      BlockVarianceOfUniform(g, x, y, width, height);
    }
    error := MeanOfChannels(r, gr, b);
  }

  // ---------------------------------------------------------------------
  // Mean absolute deviation

  /** The mean absolute deviation of one channel over the block. */
  function ChannelMad(g: Grid, x: int, y: int, width: int, height: int, channel: int): real
    requires Covers(g, x, y, width, height) && width >= 1 && height >= 1
  {
    var s := Values(g, x, y, width, height, channel);
    SumAbsDev(s, Mean(s)) / |s| as real
  }

  /** The MAD of a byte channel lies in [0, 127.5]. */
  lemma ChannelMadBounds(g: Grid, x: int, y: int, width: int, height: int, channel: int)
    requires Covers(g, x, y, width, height) && width >= 1 && height >= 1
    ensures 0.0 <= ChannelMad(g, x, y, width, height, channel) <= 127.5
  {
    ValuesLength(g, x, y, width, height, channel);
    MulPositive(width, height);
    MeanAbsoluteDeviationAtMostHalfRange(Values(g, x, y, width, height, channel));
  }

  /** The MAD of a uniform channel is zero. */
  lemma ChannelMadUniform(g: Grid, x: int, y: int, width: int, height: int, channel: int)
    requires Covers(g, x, y, width, height) && width >= 1 && height >= 1
    requires UniformChannel(g, x, y, width, height, channel)
    ensures ChannelMad(g, x, y, width, height, channel) == 0.0
  {
    ValuesLength(g, x, y, width, height, channel);
    MulPositive(width, height);
    UniformIffConstant(g, x, y, width, height, channel);
    ConstantHasNoDeviation(Values(g, x, y, width, height, channel));
  }

  /** `calculateMADForChannel`: the sum pass, then the sum of absolute
      deviations from the mean, divided by the block's area. */
  method MadForChannel(g: Grid, x: int, y: int, width: int, height: int, channel: int)
    returns (mad: real)
    requires Covers(g, x, y, width, height) && width >= 1 && height >= 1
    ensures mad == ChannelMad(g, x, y, width, height, channel)
  {
    var sum := SumChannel(g, x, y, width, height, channel);
    ValuesLength(g, x, y, width, height, channel);
    MulPositive(width, height);
    var mean := sum / (width * height) as real;
    var total := SumAbsDevPass(g, x, y, width, height, channel, mean);
    mad := total / (width * height) as real;
  }

  /** The second pass of `calculateMADForChannel`: the sum of absolute deviations
      from `mean`, in loop order. */
  method SumAbsDevPass(g: Grid, x: int, y: int, width: int, height: int, channel: int, mean: real)
    returns (total: real)
    requires Covers(g, x, y, width, height)
    ensures total == SumAbsDev(Values(g, x, y, width, height, channel), mean)
  {
    total := 0.0;
    ghost var seen: seq<int> := [];
    var j := y;
    while j < y + height
      invariant y <= j <= y + height
      invariant seen == Values(g, x, y, width, j - y, channel)
      invariant total == SumAbsDev(seen, mean)
    {
      RowBoundaries(g, x, y, width, j, channel);
      total := SumAbsDevRow(g[j], x, width, channel, mean, seen, total);
      seen := seen + RowValues(g[j], x, width, channel);
      j := j + 1;
    }
  }

  /** The inner loop of the absolute-deviation pass over one row. */
  method SumAbsDevRow(row: seq<Pixel>, x: int, width: int, channel: int, mean: real,
                      ghost seen: seq<int>, total: real)
    returns (total': real)
    requires 0 <= x && 0 <= width && x + width <= |row|
    requires total == SumAbsDev(seen, mean)
    ensures total' == SumAbsDev(seen + RowValues(row, x, width, channel), mean)
  {
    total' := total;
    RowStart(row, x, channel, seen);
    var i := x;
    while i < x + width
      invariant x <= i <= x + width
      invariant total' == SumAbsDev(seen + RowValues(row, x, i - x, channel), mean)
    {
      var v := ChannelValue(row[i], channel);
      RowStep(row, x, i, channel, seen);
      SumAbsDevAppend(seen + RowValues(row, x, i - x, channel), v, mean);
      var diff := v as real - mean;
      total' := total' + (if diff < 0.0 then -diff else diff);
      i := i + 1;
    }
  }

  /** The MAD error of a block: the mean of its three channel MADs. */
  function BlockMad(g: Grid, x: int, y: int, width: int, height: int): real
    requires Covers(g, x, y, width, height) && width >= 1 && height >= 1
  {
    MeanOfChannels(ChannelMad(g, x, y, width, height, 0),
                   ChannelMad(g, x, y, width, height, 1),
                   ChannelMad(g, x, y, width, height, 2))
  }

  /** A block of one colour has no MAD error. */
  lemma BlockMadOfUniform(g: Grid, x: int, y: int, width: int, height: int)
    requires Covers(g, x, y, width, height) && width >= 1 && height >= 1
    requires UniformBlock(g, x, y, width, height)
    ensures BlockMad(g, x, y, width, height) == 0.0
  {
    UniformBlockIffChannels(g, x, y, width, height);
    ChannelMadUniform(g, x, y, width, height, 0);
    ChannelMadUniform(g, x, y, width, height, 1);
    ChannelMadUniform(g, x, y, width, height, 2);
  }

  /** `MADErrorCalculator::calculateError`. */
  method MadError(g: Grid, x: int, y: int, width: int, height: int) returns (error: real)
    requires Covers(g, x, y, width, height) && width >= 1 && height >= 1
    ensures error == BlockMad(g, x, y, width, height)
    ensures 0.0 <= error <= 127.5
    ensures UniformBlock(g, x, y, width, height) ==> error == 0.0
  {
    var r := MadForChannel(g, x, y, width, height, 0);
    var gr := MadForChannel(g, x, y, width, height, 1);
    var b := MadForChannel(g, x, y, width, height, 2);
    ChannelMadBounds(g, x, y, width, height, 0);
    ChannelMadBounds(g, x, y, width, height, 1);
    ChannelMadBounds(g, x, y, width, height, 2);
    if UniformBlock(g, x, y, width, height) {
      BlockMadOfUniform(g, x, y, width, height);
    }
    error := MeanOfChannels(r, gr, b);
  }

  // ---------------------------------------------------------------------
  // Maximum pixel difference

  /** The loop's `maxVal - minVal`, promoted to `int`. On an empty block
      `minVal` stays 255 and `maxVal` stays 0, giving -255. */
  function ChannelSpread(g: Grid, x: int, y: int, width: int, height: int, channel: int): int
    requires Covers(g, x, y, width, height)
  {
    var s := Values(g, x, y, width, height, channel);
    RunningMax(s) - RunningMin(s)
  }

  /** On a non-empty block the spread lies in [0, 255] and is zero exactly
      when the channel is uniform. */
  lemma ChannelSpreadBounds(g: Grid, x: int, y: int, width: int, height: int, channel: int)
    requires Covers(g, x, y, width, height) && width >= 1 && height >= 1
    ensures 0 <= ChannelSpread(g, x, y, width, height, channel) <= 255
    ensures ChannelSpread(g, x, y, width, height, channel) == 0
        <==> UniformChannel(g, x, y, width, height, channel)
  {
    ValuesLength(g, x, y, width, height, channel);
    MulPositive(width, height);
    SpreadZeroIffConstant(Values(g, x, y, width, height, channel));
    UniformIffConstant(g, x, y, width, height, channel);
  }

  /** `calculateMaxDiffForChannel`: running minimum from 255 and running
      maximum from 0 over the block. */
  method MaxDiffForChannel(g: Grid, x: int, y: int, width: int, height: int, channel: int)
    returns (diff: int)
    requires Covers(g, x, y, width, height)
    ensures diff == ChannelSpread(g, x, y, width, height, channel)
  {
    var minVal: int := 255;
    var maxVal: int := 0;
    ghost var seen: seq<int> := [];
    var j := y;
    while j < y + height
      invariant y <= j <= y + height
      invariant seen == Values(g, x, y, width, j - y, channel)
      invariant minVal == RunningMin(seen) && maxVal == RunningMax(seen)
    {
      RowBoundaries(g, x, y, width, j, channel);
      minVal, maxVal := MinMaxRow(g[j], x, width, channel, seen, minVal, maxVal);
      seen := seen + RowValues(g[j], x, width, channel);
      j := j + 1;
    }
    diff := maxVal - minVal;
  }

  /** The inner loop of the extremes pass over one row. */
  method MinMaxRow(row: seq<Pixel>, x: int, width: int, channel: int,
                   ghost seen: seq<int>, minVal: int, maxVal: int)
    returns (minVal': int, maxVal': int)
    requires 0 <= x && 0 <= width && x + width <= |row|
    requires minVal == RunningMin(seen) && maxVal == RunningMax(seen)
    ensures minVal' == RunningMin(seen + RowValues(row, x, width, channel))
    ensures maxVal' == RunningMax(seen + RowValues(row, x, width, channel))
  {
    minVal', maxVal' := minVal, maxVal;
    RowStart(row, x, channel, seen);
    var i := x;
    while i < x + width
      invariant x <= i <= x + width
      invariant minVal' == RunningMin(seen + RowValues(row, x, i - x, channel))
      invariant maxVal' == RunningMax(seen + RowValues(row, x, i - x, channel))
    {
      var v := ChannelValue(row[i], channel);
      RowStep(row, x, i, channel, seen);
      FrontOfAppend(seen + RowValues(row, x, i - x, channel), v);
      if v < minVal' {
        minVal' := v;
      }
      if v > maxVal' {
        maxVal' := v;
      }
      i := i + 1;
    }
  }

  /** The maximum-difference error of a block: the mean of its three
      channel spreads. */
  function BlockMaxDiff(g: Grid, x: int, y: int, width: int, height: int): real
    requires Covers(g, x, y, width, height)
  {
    MeanOfChannels(ChannelSpread(g, x, y, width, height, 0) as real,
                   ChannelSpread(g, x, y, width, height, 1) as real,
                   ChannelSpread(g, x, y, width, height, 2) as real)
  }

  /** On a non-empty block the maximum-difference error lies in [0, 255]
      and is zero exactly when the block has one colour. */
  lemma BlockMaxDiffBounds(g: Grid, x: int, y: int, width: int, height: int)
    requires Covers(g, x, y, width, height) && width >= 1 && height >= 1
    ensures 0.0 <= BlockMaxDiff(g, x, y, width, height) <= 255.0
    ensures BlockMaxDiff(g, x, y, width, height) == 0.0 <==> UniformBlock(g, x, y, width, height)
  {
    ChannelSpreadBounds(g, x, y, width, height, 0);
    ChannelSpreadBounds(g, x, y, width, height, 1);
    ChannelSpreadBounds(g, x, y, width, height, 2);
    UniformBlockIffChannels(g, x, y, width, height);
  }

  /** `MaxPixelDifferenceCalculator::calculateError`: in [0, 255], and zero
      exactly on a uniform block. */
  method MaxDiffError(g: Grid, x: int, y: int, width: int, height: int) returns (error: real)
    requires Covers(g, x, y, width, height) && width >= 1 && height >= 1
    ensures error == BlockMaxDiff(g, x, y, width, height)
    ensures 0.0 <= error <= 255.0
    ensures error == 0.0 <==> UniformBlock(g, x, y, width, height)
  {
    var r := MaxDiffForChannel(g, x, y, width, height, 0);
    var gr := MaxDiffForChannel(g, x, y, width, height, 1);
    var b := MaxDiffForChannel(g, x, y, width, height, 2);
    BlockMaxDiffBounds(g, x, y, width, height);
    error := MeanOfChannels(r as real, gr as real, b as real);
  }

  // ---------------------------------------------------------------------
  // Entropy histogram

  /** Appending a byte value increments exactly its bin. */
  lemma HistogramAppend(s: seq<int>, v: int)
    requires 0 <= v < 256
    ensures Histogram(s + [v]) == Histogram(s)[v := Histogram(s)[v] + 1]
  {
    FrontOfAppend(s, v);
  }

  /** The 256-bin histogram of `calculateEntropyForChannel`, built by
      incrementing the bin of each cell in loop order. Bin k counts the
      cells whose channel value is k, and the bins add up to the area. */
  method EntropyHistogram(g: Grid, x: int, y: int, width: int, height: int, channel: int)
    returns (histogram: seq<int>)
    requires Covers(g, x, y, width, height)
    ensures histogram == Histogram(Values(g, x, y, width, height, channel))
    ensures |histogram| == 256 && Sum(histogram) == width * height
  {
    histogram := seq(256, k => 0);
    EmptyHistogram();
    assert histogram == Histogram([]);
    ghost var seen: seq<int> := [];
    var j := y;
    while j < y + height
      invariant y <= j <= y + height
      invariant seen == Values(g, x, y, width, j - y, channel)
      invariant histogram == Histogram(seen)
    {
      RowBoundaries(g, x, y, width, j, channel);
      histogram := HistogramRow(histogram, g[j], x, width, channel, seen);
      seen := seen + RowValues(g[j], x, width, channel);
      j := j + 1;
    }
    BlockHistogramTotal(g, x, y, width, height, channel);
  }

  /** The bins of a block's histogram add up to its area. */
  lemma BlockHistogramTotal(g: Grid, x: int, y: int, width: int, height: int, channel: int)
    requires Covers(g, x, y, width, height)
    ensures Sum(Histogram(Values(g, x, y, width, height, channel))) == width * height
  {
    ValuesLength(g, x, y, width, height, channel);
    HistogramTotal(Values(g, x, y, width, height, channel));
  }

  /** No values: every bin is zero. */
  lemma EmptyHistogram()
    ensures Histogram([]) == seq(256, k => 0)
  {
  }

  /** The inner loop of the histogram pass: one increment per cell of the
      row, after the values `seen`. */
  method HistogramRow(histogram: seq<int>, row: seq<Pixel>, x: int, width: int, channel: int,
                      ghost seen: seq<int>)
    returns (histogram': seq<int>)
    requires 0 <= x && 0 <= width && x + width <= |row|
    requires histogram == Histogram(seen)
    ensures histogram' == Histogram(seen + RowValues(row, x, width, channel))
  {
    histogram' := histogram;
    RowStart(row, x, channel, seen);
    var i := x;
    while i < x + width
      invariant x <= i <= x + width
      invariant histogram' == Histogram(seen + RowValues(row, x, i - x, channel))
    {
      var v := ChannelValue(row[i], channel);
      RowStep(row, x, i, channel, seen);
      HistogramAppend(seen + RowValues(row, x, i - x, channel), v);
      histogram' := histogram'[v := histogram'[v] + 1];
      i := i + 1;
    }
  }

}
