/** RGB pixels with three 8-bit channels, and the channel arithmetic of the
    `Pixel` struct. Every operator builds a new pixel through the
    `unsigned char` constructor, so each channel result is reduced modulo 256. */
module Pixels {

  /** The values of an `unsigned char`. */
  type Byte = b: int | 0 <= b < 256

  datatype Pixel = Pixel(r: Byte, g: Byte, b: Byte)

  /** Conversion of an `int` to `unsigned char`: reduction modulo 256. */
  function ToByte(v: int): (c: Byte)
    ensures (v - c) % 256 == 0
    ensures 0 <= v < 256 ==> c == v
  {
    v % 256
  }

  /** `Pixel(r, g, b)` called with `int` arguments, each narrowed to a byte. */
  function FromInts(r: int, g: int, b: int): Pixel
  {
    Pixel(ToByte(r), ToByte(g), ToByte(b))
  }

  /** The default constructor `Pixel()`. */
  function Black(): (p: Pixel)
    ensures p.r == 0 && p.g == 0 && p.b == 0
  {
    Pixel(0, 0, 0)
  }

  /** `operator+`: channel-wise sum, wrapped to a byte. */
  function Add(p: Pixel, q: Pixel): Pixel
  {
    FromInts(p.r + q.r, p.g + q.g, p.b + q.b)
  }

  /** `operator-`: channel-wise difference, wrapped to a byte. */
  function Sub(p: Pixel, q: Pixel): Pixel
  {
    FromInts(p.r - q.r, p.g - q.g, p.b - q.b)
  }

  /** C++ `int` division, which truncates toward zero. */
  function TruncDiv(a: int, d: int): int
    requires d != 0
  {
    if d > 0 then
      (if a >= 0 then a / d else -((-a) / d))
    else
      (if a >= 0 then -(a / -d) else (-a) / -d)
  }

  /** `operator/`: each channel divided by `divisor` as C++ `int`s, then
      narrowed to a byte. A zero divisor is undefined behaviour in C++. */
  function Div(p: Pixel, divisor: int): Pixel
    requires divisor != 0
  {
    FromInts(TruncDiv(p.r, divisor), TruncDiv(p.g, divisor), TruncDiv(p.b, divisor))
  }

  /** `operator==`: all three channels agree. */
  function Equals(p: Pixel, q: Pixel): (same: bool)
    ensures same <==> p == q
  {
    p.r == q.r && p.g == q.g && p.b == q.b
  }

  /** `operator!=`: the negation of `operator==`. */
  function NotEquals(p: Pixel, q: Pixel): (differ: bool)
    ensures differ <==> p != q
  {
    !Equals(p, q)
  }

  lemma AddCommutes(p: Pixel, q: Pixel)
    ensures Add(p, q) == Add(q, p)
  {
  }

  /** Each channel of a sum is the sum of the channels modulo 256. */
  lemma AddChannels(p: Pixel, q: Pixel)
    ensures Add(p, q).r == (p.r + q.r) % 256
    ensures Add(p, q).g == (p.g + q.g) % 256
    ensures Add(p, q).b == (p.b + q.b) % 256
  {
  }

  lemma ByteRoundTrip(a: Byte, b: Byte)
    ensures ToByte(ToByte(a + b) - b) == a
  {
    var s: int := ToByte(a + b);
    assert a + b == s || a + b == s + 256;
  }

  /** Subtracting what was added gives the original pixel back, even when
      the addition wrapped around. */
  lemma SubUndoesAdd(p: Pixel, q: Pixel)
    ensures Sub(Add(p, q), q) == p
  {
    ByteRoundTrip(p.r, q.r);
    ByteRoundTrip(p.g, q.g);
    ByteRoundTrip(p.b, q.b);
  }

  /** With a positive divisor, each channel is floor-divided and does not grow. */
  lemma DivShrinks(p: Pixel, divisor: int)
    requires divisor >= 1
    ensures Div(p, divisor).r == p.r / divisor <= p.r
    ensures Div(p, divisor).g == p.g / divisor <= p.g
    ensures Div(p, divisor).b == p.b / divisor <= p.b
  {
    QuotientShrinks(p.r, divisor);
    QuotientShrinks(p.g, divisor);
    QuotientShrinks(p.b, divisor);
  }

  lemma QuotientShrinks(a: Byte, d: int)
    requires d >= 1
    ensures TruncDiv(a, d) == a / d && 0 <= a / d <= a
  {
    var q := a / d;
    assert d * q + a % d == a;
    assert q >= 0;
    MulNonneg(q, d - 1);
    assert d * q == q + q * (d - 1);
  }

  lemma MulNonneg(a: int, b: int)
    requires a >= 0 && b >= 0
    ensures a * b >= 0
  {
  }

  /** A byte divided by a negative divisor: C++ truncates toward zero, so
      the quotient is minus the byte's floor quotient by |d|. */
  lemma NegativeQuotient(a: Byte, d: int)
    requires d < 0
    ensures TruncDiv(a, d) == -(a / -d) && -(a as int) <= TruncDiv(a, d) <= 0
  {
    QuotientShrinks(a, -d);
  }

  /** Dividing by a negative divisor: each channel's truncated quotient
      -(v / |d|) is narrowed to a byte, so it is 0 when v / |d| is 0 and
      wraps to 256 - v / |d| otherwise. */
  lemma DivByNegative(p: Pixel, divisor: int)
    requires divisor < 0
    ensures var q := p.r / -divisor; Div(p, divisor).r == if q == 0 then 0 else 256 - q
    ensures var q := p.g / -divisor; Div(p, divisor).g == if q == 0 then 0 else 256 - q
    ensures var q := p.b / -divisor; Div(p, divisor).b == if q == 0 then 0 else 256 - q
  {
    NegativeQuotient(p.r, divisor);
    NegativeQuotient(p.g, divisor);
    NegativeQuotient(p.b, divisor);
  }

  /** With a negative divisor the truncated quotient is zero or negative,
      and narrowing it to a byte wraps it around. */
  lemma DivByNegativeWraps(divisor: int)
    requires divisor < 0
    ensures Div(Pixel(255, 0, 1), divisor).g == 0
    ensures divisor == -1 ==> Div(Pixel(255, 0, 1), divisor) == Pixel(1, 0, 255)
  {
  }
}
