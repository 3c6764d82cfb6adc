/** The configuration of one compression run: the error-method enumeration and
    the `CompressionParams` record with its default values. */
module Params {

  /** `ErrorMethod` is a C++ `enum class` over `int`; a `static_cast` can give
      it any integer, so the model keeps the integer code. */
  type ErrorMethod = int

  const Variance: ErrorMethod := 1
  const MeanAbsoluteDeviation: ErrorMethod := 2
  const MaxPixelDifference: ErrorMethod := 3
  const Entropy: ErrorMethod := 4
  const StructuralSimilarity: ErrorMethod := 5

  /** True of the five named enumerators. */
  predicate IsNamedMethod(m: ErrorMethod)
  {
    m == Variance || m == MeanAbsoluteDeviation || m == MaxPixelDifference
    || m == Entropy || m == StructuralSimilarity
  }

  datatype CompressionParams = CompressionParams(
    inputImagePath: string,
    errorMethod: ErrorMethod,
    threshold: real,
    minBlockSize: int,
    targetCompressionPercentage: real,
    outputImagePath: string,
    gifOutputPath: string,
    generateGif: bool)

  /** The default constructor; the strings start empty. */
  function Default(): (p: CompressionParams)
    ensures p.errorMethod == Variance && IsNamedMethod(p.errorMethod)
    ensures p.threshold == 0.0 && p.minBlockSize == 1
    ensures p.targetCompressionPercentage == 0.0 && !TargetEnabled(p)
    ensures !p.generateGif
    ensures p.inputImagePath == p.outputImagePath == p.gifOutputPath == ""
  {
    CompressionParams("", Variance, 0.0, 1, 0.0, "", "", false)
  }

  /** A positive target percentage switches on the automatic threshold
      search; zero disables it. */
  predicate TargetEnabled(p: CompressionParams)
  {
    p.targetCompressionPercentage > 0.0
  }

  /** The five enumerators are exactly the codes 1 to 5. */
  lemma NamedMethodsAreOneToFive(m: ErrorMethod)
    ensures IsNamedMethod(m) <==> 1 <= m <= 5
  {
  }
}
