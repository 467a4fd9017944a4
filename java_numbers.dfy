/** The parts of Java's number semantics the model depends on: a `float` is a real
    number, NaN or an infinity (rounding is not modelled), and `int`, `long` and
    `byte` arithmetic wraps around in two's complement. */
module JavaNumbers {

  /** A Java `float`: NaN, a finite value (taken as an exact real) or an infinity. */
  datatype Float = NaN | Num(r: real) | Inf(positive: bool)

  const INT32_MIN: int := -0x8000_0000
  const INT32_MAX: int := 0x7FFF_FFFF
  const INT64_MIN: int := -0x8000_0000_0000_0000
  const INT64_MAX: int := 0x7FFF_FFFF_FFFF_FFFF

  type int32 = x: int | INT32_MIN <= x <= INT32_MAX
  type int64 = x: int | INT64_MIN <= x <= INT64_MAX

  /** An `int` operation's result: the exact value wrapped into 32 bits. */
  function Int32(x: int): (r: int32)
    ensures INT32_MIN <= x <= INT32_MAX ==> r == x
    ensures (r - x) % 0x1_0000_0000 == 0
  {
    var y := x + 0x8000_0000;
    assert y == 0x1_0000_0000 * (y / 0x1_0000_0000) + y % 0x1_0000_0000;
    y % 0x1_0000_0000 - 0x8000_0000
  }

  /** A `long` operation's result: the exact value wrapped into 64 bits. */
  function Int64(x: int): (r: int64)
    ensures INT64_MIN <= x <= INT64_MAX ==> r == x
    ensures (r - x) % 0x1_0000_0000_0000_0000 == 0
  {
    var y := x + 0x8000_0000_0000_0000;
    assert y == 0x1_0000_0000_0000_0000 * (y / 0x1_0000_0000_0000_0000) + y % 0x1_0000_0000_0000_0000;
    y % 0x1_0000_0000_0000_0000 - 0x8000_0000_0000_0000
  }

  /** The `(byte)` cast: keeps the low eight bits, read as a signed value. */
  function JavaByte(x: int): (r: int)
    ensures -128 <= r <= 127
    ensures -128 <= x <= 127 ==> r == x
    ensures (r - x) % 256 == 0
  {
    var y := x + 128;
    assert y == 256 * (y / 256) + y % 256;
    y % 256 - 128
  }

  /** Util.clamp: the value nearest to `x` in [0,1]. */
  function Clamp(x: real): (r: real)
    ensures 0.0 <= r <= 1.0
    ensures 0.0 <= x <= 1.0 ==> r == x
    ensures x < 0.0 ==> r == 0.0
    ensures x > 1.0 ==> r == 1.0
  {
    if x < 0.0 then 0.0 else if x > 1.0 then 1.0 else x
  }

  /** Util.clamp of a float that is not NaN: the infinities clamp to the bounds. */
  function ClampFloat(x: Float): (r: real)
    requires !x.NaN?
    ensures 0.0 <= r <= 1.0
    ensures x.Num? ==> r == Clamp(x.r)
    ensures x.Inf? ==> r == (if x.positive then 1.0 else 0.0)
  {
    match x
    case Num(v) => Clamp(v)
    case Inf(pos) => if pos then 1.0 else 0.0
  }

  function Sign(x: Float): int
    requires !x.NaN?
  {
    match x
    case Num(v) => if v < 0.0 then -1 else if v == 0.0 then 0 else 1
    case Inf(pos) => if pos then 1 else -1
  }

  /** IEEE multiplication: NaN is absorbing, and an infinity times zero is NaN. */
  function Mul(a: Float, b: Float): (r: Float)
    ensures a.NaN? || b.NaN? ==> r.NaN?
    ensures a.Num? && b.Num? ==> r == Num(a.r * b.r)
    ensures r.NaN? ==> a.NaN? || b.NaN? || (a.Inf? && b == Num(0.0)) || (b.Inf? && a == Num(0.0))
  {
    if a.NaN? || b.NaN? then NaN
    else if a.Num? && b.Num? then Num(a.r * b.r)
    else
      var s := Sign(a) * Sign(b);
      if s == 0 then NaN else Inf(s > 0)
  }

  /** IEEE addition: NaN is absorbing, and infinities of opposite sign give NaN. */
  function Add(a: Float, b: Float): (r: Float)
    ensures a.NaN? || b.NaN? ==> r.NaN?
    ensures a.Num? && b.Num? ==> r == Num(a.r + b.r)
    ensures r.NaN? ==> a.NaN? || b.NaN? || (a.Inf? && b.Inf? && a.positive != b.positive)
  {
    match (a, b)
    case (NaN, _) => NaN
    case (_, NaN) => NaN
    case (Num(x), Num(y)) => Num(x + y)
    case (Inf(p), Inf(q)) => if p == q then a else NaN
    case (Inf(_), _) => a
    case (_, Inf(_)) => b
  }

  /** Java's `==` on floats: NaN equals nothing, not even itself. */
  predicate FloatEq(a: Float, b: Float)
  {
    !a.NaN? && !b.NaN? && a == b
  }

  /** `1f / n` for an `int` n converted to float; `1f / 0f` is positive infinity.
      The ensures spell out the body for callers' proofs. */
  function Reciprocal(n: int): (r: Float)
    ensures n != 0 ==> r == Num(1.0 / n as real)
    ensures n == 0 ==> r == Inf(true)
  {
    if n == 0 then Inf(true) else Num(1.0 / n as real)
  }
}
