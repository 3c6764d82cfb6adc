/** Statistics over the flattened channel values of an image region: the sums,
    running extremes, deviations and bin counts that the error metrics and the
    average color accumulate. Each is defined by peeling off the LAST value,
    which is the order in which the source's loops meet the values. */
module Stats {

  predicate AllBytes(s: seq<int>)
  {
    forall i :: 0 <= i < |s| ==> 0 <= s[i] < 256
  }

  function Last(s: seq<int>): int
    requires |s| > 0
  {
    s[|s| - 1]
  }

  function Front(s: seq<int>): seq<int>
    requires |s| > 0
  {
    s[..|s| - 1]
  }

  function Sum(s: seq<int>): int
  {
    if |s| == 0 then 0 else Sum(Front(s)) + Last(s)
  }

  /** Summing a concatenation sums the parts. */
  lemma {:induction false} SumConcat(a: seq<int>, b: seq<int>)
    ensures Sum(a + b) == Sum(a) + Sum(b)
    decreases |b|
  {
    if |b| > 0 {
      assert Front(a + b) == a + Front(b);
      SumConcat(a, Front(b));
    } else {
      assert a + b == a;
    }
  }

  function Mean(s: seq<int>): real
    requires |s| > 0
  {
    Sum(s) as real / |s| as real
  }

  /** The minimum of 255 and the values: the loop's `minVal` starts at 255. */
  function RunningMin(s: seq<int>): int
  {
    if |s| == 0 then 255
    else if Last(s) < RunningMin(Front(s)) then Last(s)
    else RunningMin(Front(s))
  }

  /** The maximum of 0 and the values: the loop's `maxVal` starts at 0. */
  function RunningMax(s: seq<int>): int
  {
    if |s| == 0 then 0
    else if Last(s) > RunningMax(Front(s)) then Last(s)
    else RunningMax(Front(s))
  }

  function Square(d: real): real
  {
    d * d
  }

  function Abs(d: real): real
  {
    if d < 0.0 then -d else d
  }

  /** The sum of squared deviations from `m`. */
  function SumSqDev(s: seq<int>, m: real): real
  {
    if |s| == 0 then 0.0 else SumSqDev(Front(s), m) + Square(Last(s) as real - m)
  }

  /** The sum of absolute deviations from `m`. */
  function SumAbsDev(s: seq<int>, m: real): real
  {
    if |s| == 0 then 0.0 else SumAbsDev(Front(s), m) + Abs(Last(s) as real - m)
  }

  /** How many of the values equal `k`. */
  function Occurrences(s: seq<int>, k: int): nat
  {
    if |s| == 0 then 0
    else Occurrences(Front(s), k) + (if Last(s) == k then 1 else 0)
  }

  /** All values equal the first one. */
  predicate Constant(s: seq<int>)
  {
    forall i :: 0 <= i < |s| ==> s[i] == s[0]
  }

  lemma FrontOfAppend(s: seq<int>, v: int)
    ensures Front(s + [v]) == s && Last(s + [v]) == v
  {
    assert (s + [v])[..|s|] == s;
  }

  /** Appending a value adds its squared deviation. */
  lemma SumSqDevAppend(s: seq<int>, v: int, m: real)
    ensures SumSqDev(s + [v], m) == SumSqDev(s, m) + Square(v as real - m)
  {
    FrontOfAppend(s, v);
  }

  /** Appending a value adds its absolute deviation. */
  lemma SumAbsDevAppend(s: seq<int>, v: int, m: real)
    ensures SumAbsDev(s + [v], m) == SumAbsDev(s, m) + Abs(v as real - m)
  {
    FrontOfAppend(s, v);
  }

  lemma {:induction false} SumBounds(s: seq<int>)
    requires AllBytes(s)
    ensures 0 <= Sum(s) <= 255 * |s|
  {
    if |s| > 0 {
      SumBounds(Front(s));
    }
  }

  /** The running minimum bounds every value from below, and for a non-empty
      byte sequence it is one of the values. */
  lemma {:induction false} RunningMinIsMinimum(s: seq<int>)
    requires AllBytes(s)
    ensures forall i :: 0 <= i < |s| ==> RunningMin(s) <= s[i]
    ensures |s| > 0 ==> exists i :: 0 <= i < |s| && s[i] == RunningMin(s)
    ensures 0 <= RunningMin(s) <= 255
  {
    if |s| > 0 {
      RunningMinIsMinimum(Front(s));
      if |s| > 1 && RunningMin(s) == RunningMin(Front(s)) {
        var i :| 0 <= i < |Front(s)| && Front(s)[i] == RunningMin(Front(s));
        assert s[i] == RunningMin(s);
      } else {
        assert s[|s| - 1] == RunningMin(s);
      }
    }
  }

  /** The running maximum bounds every value from above, and for a non-empty
      byte sequence it is one of the values. */
  lemma {:induction false} RunningMaxIsMaximum(s: seq<int>)
    requires AllBytes(s)
    ensures forall i :: 0 <= i < |s| ==> s[i] <= RunningMax(s)
    ensures |s| > 0 ==> exists i :: 0 <= i < |s| && s[i] == RunningMax(s)
    ensures 0 <= RunningMax(s) <= 255
  {
    if |s| > 0 {
      RunningMaxIsMaximum(Front(s));
      if |s| > 1 && RunningMax(s) == RunningMax(Front(s)) {
        var i :| 0 <= i < |Front(s)| && Front(s)[i] == RunningMax(Front(s));
        assert s[i] == RunningMax(s);
      } else {
        assert s[|s| - 1] == RunningMax(s);
      }
    }
  }

  /** The spread max - min of a non-empty byte sequence lies in [0, 255] and
      is zero exactly when all values are equal. */
  lemma SpreadZeroIffConstant(s: seq<int>)
    requires AllBytes(s) && |s| > 0
    ensures 0 <= RunningMax(s) - RunningMin(s) <= 255
    ensures RunningMax(s) - RunningMin(s) == 0 <==> Constant(s)
  {
    RunningMinIsMinimum(s);
    RunningMaxIsMaximum(s);
    if RunningMax(s) == RunningMin(s) {
      forall i | 0 <= i < |s| ensures s[i] == s[0] {
      }
    }
    if Constant(s) {
      var i :| 0 <= i < |s| && s[i] == RunningMin(s);
      var j :| 0 <= j < |s| && s[j] == RunningMax(s);
      assert s[i] == s[0] == s[j];
    }
  }

  /** n copies of the minimum are at most the sum, n copies of the maximum
      at least the sum. */
  lemma {:induction false} SumBetweenExtremes(s: seq<int>, lo: int, hi: int)
    requires forall i :: 0 <= i < |s| ==> lo <= s[i] <= hi
    ensures lo * |s| <= Sum(s) <= hi * |s|
  {
    if |s| > 0 {
      SumBetweenExtremes(Front(s), lo, hi);
    }
  }

  lemma {:induction false} ConstantSum(s: seq<int>)
    requires |s| > 0 && Constant(s)
    ensures Sum(s) == s[0] * |s|
  {
    SumBetweenExtremes(s, s[0], s[0]);
  }

  lemma {:induction false} SumSqDevNonnegative(s: seq<int>, m: real)
    ensures SumSqDev(s, m) >= 0.0
  {
    if |s| > 0 {
      SumSqDevNonnegative(Front(s), m);
    }
  }

  lemma {:induction false} SumAbsDevNonnegative(s: seq<int>, m: real)
    ensures SumAbsDev(s, m) >= 0.0
  {
    if |s| > 0 {
      SumAbsDevNonnegative(Front(s), m);
    }
  }

  lemma {:induction false} DeviationsFromOwnValue(s: seq<int>, c: int)
    requires forall i :: 0 <= i < |s| ==> s[i] == c
    ensures SumSqDev(s, c as real) == 0.0 && SumAbsDev(s, c as real) == 0.0
  {
    if |s| > 0 {
      DeviationsFromOwnValue(Front(s), c);
    }
  }

  /** A constant sequence has its value as mean, so both deviation sums about
      the mean vanish. */
  lemma ConstantHasNoDeviation(s: seq<int>)
    requires |s| > 0 && Constant(s)
    ensures Mean(s) == s[0] as real
    ensures SumSqDev(s, Mean(s)) == 0.0 && SumAbsDev(s, Mean(s)) == 0.0
    ensures SumSqDev(s, Mean(s)) / |s| as real == 0.0
    ensures SumAbsDev(s, Mean(s)) / |s| as real == 0.0
  {
    ConstantMean(s);
    DeviationsFromOwnValue(s, s[0]);
    ZeroDiv(|s| as real);
  }

  lemma ZeroDiv(n: real)
    requires n != 0.0
    ensures 0.0 / n == 0.0
  {
  }

  lemma ConstantMean(s: seq<int>)
    requires |s| > 0 && Constant(s)
    ensures Mean(s) == s[0] as real
  {
    ConstantSum(s);
    MulToReal(s[0], |s|);
    DivCancel(s[0] as real, |s| as real);
  }

  lemma DivCancel(c: real, n: real)
    requires n != 0.0
    ensures (c * n) / n == c
  {
  }

  lemma MulToReal(a: int, b: int)
    ensures (a * b) as real == a as real * b as real
  {
  }

  lemma DivNonneg(a: real, n: real)
    requires a >= 0.0 && n > 0.0
    ensures a / n >= 0.0
  {
  }

  lemma MulNonnegReal(a: real, b: real)
    requires a >= 0.0 && b >= 0.0
    ensures a * b >= 0.0
  {
  }

  lemma SquareOfSum(a: real, b: real)
    ensures Square(a + b) == Square(a) + 2.0 * b * a + Square(b)
  {
  }

  lemma SquareNonnegative(a: real)
    ensures Square(a) >= 0.0
  {
  }

  /** The sum of signed deviations from `m`. */
  function SumDev(s: seq<int>, m: real): real
  {
    if |s| == 0 then 0.0 else SumDev(Front(s), m) + (Last(s) as real - m)
  }

  /** The signed deviations add up to the sum less n copies of `m`. */
  lemma {:induction false} SumDevIsSumLessCopies(s: seq<int>, m: real)
    ensures SumDev(s, m) == Sum(s) as real - |s| as real * m
  {
    if |s| > 0 {
      SumDevIsSumLessCopies(Front(s), m);
      CopiesStep(|Front(s)| as real, |s| as real, m);
    }
  }

  lemma CopiesStep(nf: real, n: real, m: real)
    requires n == nf + 1.0
    ensures n * m == nf * m + m
  {
  }

  /** The signed deviations from the mean cancel out. */
  lemma DeviationsFromMeanCancel(s: seq<int>)
    requires |s| > 0
    ensures SumDev(s, Mean(s)) == 0.0
  {
    SumDevIsSumLessCopies(s, Mean(s));
    MulDivCancel(Sum(s) as real, |s| as real);
  }

  lemma MulDivCancel(a: real, n: real)
    requires n != 0.0
    ensures n * (a / n) == a
  {
  }

  /** The squared deviations from `m`, re-expressed about a centre `c`: the
      right-hand side of SumSqDevShift. */
  function ShiftedSquares(s: seq<int>, m: real, c: real): real
  {
    SumSqDev(s, m) + 2.0 * (m - c) * SumDev(s, m) + |s| as real * Square(m - c)
  }

  /** Moving the centre from m to c: the squared deviations grow by twice
      the cross term and by n (m - c)^2. */
  lemma {:induction false} SumSqDevShift(s: seq<int>, m: real, c: real)
    ensures SumSqDev(s, c) == ShiftedSquares(s, m, c)
  {
    if |s| > 0 {
      SumSqDevShift(Front(s), m, c);
      ShiftInductive(s, m, c);
    }
  }

  lemma ShiftInductive(s: seq<int>, m: real, c: real)
    requires |s| > 0
    requires SumSqDev(Front(s), c) == ShiftedSquares(Front(s), m, c)
    ensures SumSqDev(s, c) == ShiftedSquares(s, m, c)
  {
    var f := Front(s);
    var v := Last(s) as real;
    SquareExpand(v, m, c);
    ShiftStep(SumSqDev(s, c), SumSqDev(s, m), SumSqDev(f, c), SumSqDev(f, m),
              Square(v - c), Square(v - m), 2.0 * (m - c), SumDev(f, m), |f| as real,
              Square(m - c), v - m, SumDev(s, m), |s| as real);
  }

  /** The induction step of SumSqDevShift, over plain reals. */
  lemma ShiftStep(bigA: real, bigB: real, a: real, b: real, x: real, y: real, k: real,
                  df: real, nf: real, q: real, e: real, bigD: real, bigN: real)
    requires bigA == a + x && bigB == b + y
    requires a == b + k * df + nf * q
    requires x == y + k * e + q
    requires bigD == df + e && bigN == nf + 1.0
    ensures bigA == bigB + k * bigD + bigN * q
  {
  }

  lemma SquareExpand(v: real, m: real, c: real)
    ensures Square(v - c) == Square(v - m) + 2.0 * (m - c) * (v - m) + Square(m - c)
  {
  }

  /** The mean minimises the sum of squared deviations. */
  lemma MeanMinimisesSquares(s: seq<int>, c: real)
    requires |s| > 0
    ensures SumSqDev(s, Mean(s)) <= SumSqDev(s, c)
  {
    DeviationsFromMeanCancel(s);
    CentreMinimisesSquares(s, Mean(s), c);
  }

  /** A centre the signed deviations cancel about minimises the squared
      deviations. */
  lemma CentreMinimisesSquares(s: seq<int>, m: real, c: real)
    requires SumDev(s, m) == 0.0
    ensures SumSqDev(s, m) <= SumSqDev(s, c)
  {
    SumSqDevShift(s, m, c);
    SquareNonnegative(m - c);
    DropCentredTerms(SumSqDev(s, c), SumSqDev(s, m), 2.0 * (m - c),
                     SumDev(s, m), |s| as real, Square(m - c));
  }

  /** The conclusion of MeanMinimisesSquares, over plain reals. */
  lemma DropCentredTerms(a: real, b: real, k: real, d: real, n: real, q: real)
    requires a == b + k * d + n * q
    requires d == 0.0 && n >= 0.0 && q >= 0.0
    ensures b <= a
  {
    MulNonnegReal(n, q);
  }

  /** Byte values lie within 127.5 of the middle of their range. */
  lemma {:induction false} SquaresAboutMidrange(s: seq<int>)
    requires AllBytes(s)
    ensures SumSqDev(s, 127.5) <= |s| as real * (127.5 * 127.5)
  {
    if |s| > 0 {
      SquaresAboutMidrange(Front(s));
      var d := Last(s) as real - 127.5;
      assert -127.5 <= d <= 127.5;
      assert 127.5 * 127.5 - Square(d) == (127.5 - d) * (127.5 + d);
      MulNonnegReal(127.5 - d, 127.5 + d);
      assert |s| as real * (127.5 * 127.5)
          == |Front(s)| as real * (127.5 * 127.5) + 127.5 * 127.5;
    }
  }

  /** Popoviciu's bound for bytes: the population variance is at most
      127.5^2 = 16256.25. */
  lemma VarianceAtMostQuarterRangeSquared(s: seq<int>)
    requires AllBytes(s) && |s| > 0
    ensures 0.0 <= SumSqDev(s, Mean(s)) / |s| as real <= 16256.25
  {
    SumSqDevNonnegative(s, Mean(s));
    DivNonneg(SumSqDev(s, Mean(s)), |s| as real);
    MeanMinimisesSquares(s, 127.5);
    SquaresAboutMidrange(s);
  }

  /** 2c|d| <= d^2 + c^2, summed over the values. */
  lemma {:induction false} AbsBelowSquares(s: seq<int>, m: real, c: real)
    requires c > 0.0
    ensures 2.0 * c * SumAbsDev(s, m) <= SumSqDev(s, m) + |s| as real * Square(c)
  {
    if |s| > 0 {
      AbsBelowSquares(Front(s), m, c);
      var d := Last(s) as real - m;
      var a := Abs(d);
      assert Square(a) == Square(d);
      SquareOfSum(a, -c);
      SquareNonnegative(a - c);
      assert 2.0 * c * a <= Square(d) + Square(c);
      assert |s| as real * Square(c) == |Front(s)| as real * Square(c) + Square(c);
    }
  }

  /** The mean absolute deviation of bytes is at most 127.5. */
  lemma MeanAbsoluteDeviationAtMostHalfRange(s: seq<int>)
    requires AllBytes(s) && |s| > 0
    ensures 0.0 <= SumAbsDev(s, Mean(s)) / |s| as real <= 127.5
  {
    var m := Mean(s);
    SumAbsDevNonnegative(s, m);
    DivNonneg(SumAbsDev(s, m), |s| as real);
    AbsBelowSquares(s, m, 127.5);
    MeanMinimisesSquares(s, 127.5);
    SquaresAboutMidrange(s);
    HalfRangeBound(SumAbsDev(s, m), SumSqDev(s, m), SumSqDev(s, 127.5), |s| as real);
  }

  /** The conclusion of MeanAbsoluteDeviationAtMostHalfRange, over plain
      reals: 255 a <= q + 127.5^2 n and q <= 127.5^2 n give a / n <= 127.5. */
  lemma HalfRangeBound(a: real, q: real, qc: real, n: real)
    requires n > 0.0
    requires 2.0 * 127.5 * a <= q + n * Square(127.5)
    requires q <= qc && qc <= n * (127.5 * 127.5)
    ensures a / n <= 127.5
  {
    assert a <= n * 127.5;
  }

  /** Sum of a sequence after one element is incremented. */
  lemma {:induction false} SumIncrement(h: seq<int>, k: int)
    requires 0 <= k < |h|
    ensures Sum(h[k := h[k] + 1]) == Sum(h) + 1
  {
    var h' := h[k := h[k] + 1];
    if k < |h| - 1 {
      assert Front(h') == Front(h)[k := h[k] + 1];
      SumIncrement(Front(h), k);
    } else {
      assert Front(h') == Front(h);
    }
  }

  /** The bin counts of a byte sequence over bins 0..255. */
  function Histogram(s: seq<int>): (h: seq<int>)
    ensures |h| == 256
    ensures forall k :: 0 <= k < 256 ==> h[k] == Occurrences(s, k)
  {
    seq(256, k => Occurrences(s, k))
  }

  /** Each value of a byte sequence falls in exactly one of the 256 bins, so
      the bin counts add up to its length. */
  lemma {:induction false} HistogramTotal(s: seq<int>)
    requires AllBytes(s)
    ensures Sum(Histogram(s)) == |s|
  {
    if |s| == 0 {
      assert Histogram(s) == seq(256, k => 0);
      ZeroSum(256);
    } else {
      HistogramTotal(Front(s));
      var v := Last(s);
      assert Histogram(s) == Histogram(Front(s))[v := Histogram(Front(s))[v] + 1];
      SumIncrement(Histogram(Front(s)), v);
    }
  }

  lemma {:induction false} ZeroSum(n: nat)
    ensures Sum(seq(n, k => 0)) == 0
  {
    if n > 0 {
      assert Front(seq(n, k => 0)) == seq(n - 1, k => 0);
      ZeroSum(n - 1);
    }
  }
}
