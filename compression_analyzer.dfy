/** `CompressionAnalyzer::calculateCompressionPercentage`: the share of the
    original size saved by compression, in percent. Sizes are `size_t`
    byte counts; the quotient is taken in floating point, idealised here
    as exact real arithmetic. */
module CompressionAnalysis {

  /** The analyzer's two sizes. The tree reference it also holds is used
      only for display. */
  datatype CompressionAnalyzer = CompressionAnalyzer(originalImageSize: nat, compressedImageSize: nat)

  /** 0 for an empty original, otherwise `(1 - compressed / original) * 100`:
      the saved bytes as a percentage of the original. */
  function CompressionPercentage(a: CompressionAnalyzer): (p: real)
    ensures a.originalImageSize == 0 ==> p == 0.0
    ensures a.originalImageSize > 0 ==>
      p * a.originalImageSize as real == (a.originalImageSize - a.compressedImageSize) as real * 100.0
  {
    if a.originalImageSize == 0 then 0.0
    else (1.0 - a.compressedImageSize as real / a.originalImageSize as real) * 100.0
  }

  /** No change in size saves nothing; an empty result saves everything. */
  lemma PercentageEndpoints(a: CompressionAnalyzer)
    requires a.originalImageSize > 0
    ensures a.compressedImageSize == a.originalImageSize ==> CompressionPercentage(a) == 0.0
    ensures a.compressedImageSize == 0 ==> CompressionPercentage(a) == 100.0
  {
    var p := CompressionPercentage(a);
    var n := a.originalImageSize as real;
    if a.compressedImageSize == a.originalImageSize {
      assert p * n == 0.0;
    }
    if a.compressedImageSize == 0 {
      assert p * n == 100.0 * n;
    }
  }

  /** A result no larger than the original gives a percentage in [0, 100];
      a larger one gives a negative percentage. */
  lemma PercentageRange(a: CompressionAnalyzer)
    requires a.originalImageSize > 0
    ensures a.compressedImageSize <= a.originalImageSize ==> 0.0 <= CompressionPercentage(a) <= 100.0
    ensures a.compressedImageSize > a.originalImageSize ==> CompressionPercentage(a) < 0.0
  {
    var p := CompressionPercentage(a);
    var n := a.originalImageSize as real;
    var saved := (a.originalImageSize - a.compressedImageSize) as real * 100.0;
    assert p * n == saved;
    if a.compressedImageSize <= a.originalImageSize {
      assert 0.0 <= saved <= 100.0 * n;
      SignOfQuotient(p, n, saved);
      SignOfQuotient(100.0 - p, n, 100.0 * n - saved);
    } else {
      assert saved < 0.0;
      SignOfQuotient(p, n, saved);
    }
  }

  /** With a positive factor, a product has the sign of the other factor. */
  lemma SignOfQuotient(p: real, n: real, product: real)
    requires n > 0.0 && p * n == product
    ensures product >= 0.0 ==> p >= 0.0
    ensures product < 0.0 ==> p < 0.0
  {
  }

  /** For a fixed original, a smaller result gives a strictly larger
      percentage. */
  lemma PercentageDecreasesWithSize(a: CompressionAnalyzer, b: CompressionAnalyzer)
    requires a.originalImageSize == b.originalImageSize > 0
    requires a.compressedImageSize < b.compressedImageSize
    ensures CompressionPercentage(a) > CompressionPercentage(b)
  {
    var n := a.originalImageSize as real;
    var pa, pb := CompressionPercentage(a), CompressionPercentage(b);
    assert (pa - pb) * n == (b.compressedImageSize - a.compressedImageSize) as real * 100.0;
    SignOfQuotient(pb - pa, n, (a.compressedImageSize - b.compressedImageSize) as real * 100.0);
  }
}
