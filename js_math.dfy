/**
 * The few numeric primitives of JavaScript and Python that the model needs,
 * written over `real` and `int` instead of IEEE-754 doubles.
 */
module JsMath {
  import opened Wrappers

  /** `Math.round`: the nearest integer, halves rounded up (towards +infinity). */
  function Round(x: real): (r: int)
    ensures r as real - 0.5 <= x < r as real + 0.5
  {
    (x + 0.5).Floor
  }

  /** `Math.floor`. */
  function Floor(x: real): (r: int)
    ensures r as real <= x < r as real + 1.0
  {
    x.Floor
  }

  /** `Math.ceil`. */
  function Ceil(x: real): (r: int)
    ensures x <= r as real < x + 1.0
  {
    -((-x).Floor)
  }

  function Max(a: real, b: real): (r: real)
    ensures r >= a && r >= b && (r == a || r == b)
  {
    if a >= b then a else b
  }

  function Min(a: real, b: real): (r: real)
    ensures r <= a && r <= b && (r == a || r == b)
  {
    if a <= b then a else b
  }

  /** `Math.max(lo, Math.min(hi, v))`: clamps `v` into `[lo, hi]`; `lo` wins when `hi < lo`. */
  function ClampLow(lo: real, hi: real, v: real): (r: real)
    ensures lo <= r
    ensures lo <= hi ==> r <= hi
    ensures lo <= v <= hi ==> r == v
  {
    Max(lo, Min(hi, v))
  }

  /**
   * `parseFloat(x.toFixed(2))`: `toFixed` rounds the magnitude half-up to two
   * decimals and keeps the sign.
   */
  function Round2(x: real): (r: real)
    ensures x - 0.005 <= r <= x + 0.005
  {
    if x >= 0.0 then ((x * 100.0 + 0.5).Floor as real) / 100.0
    else -((( -x) * 100.0 + 0.5).Floor as real) / 100.0
  }

  /** `x || d` for a number: `d` when `x` is missing or zero. */
  function OrNumber(x: Option<real>, d: real): (r: real)
    ensures x.Some? && x.value != 0.0 ==> r == x.value
    ensures x.None? || x.value == 0.0 ==> r == d
  {
    if x.Some? && x.value != 0.0 then x.value else d
  }

  /** `x || d` for a string: `d` when `x` is missing or empty. */
  function OrString(x: Option<string>, d: string): (r: string)
    ensures x.Some? && x.value != "" ==> r == x.value
    ensures x.None? || x.value == "" ==> r == d
  {
    if x.Some? && x.value != "" then x.value else d
  }

  /** `x || null` for an integer: zero counts as missing. */
  function TruthyInt(x: Option<int>): (r: Option<int>)
    ensures r.Some? <==> x.Some? && x.value != 0
    ensures r.Some? ==> r == x
  {
    if x.Some? && x.value != 0 then x else None
  }

  /** A JavaScript number as far as division can take it: finite, one of the infinities, or `NaN`. */
  datatype JsNumber = Finite(v: real) | PosInfinity | NegInfinity | NaN

  /**
   * `(a / b) * 100` in JavaScript: finite for a non-zero divisor; for a zero
   * divisor `NaN` when `a` is zero and an infinity of `a`'s sign otherwise.
   */
  function DivPercent(a: real, b: real): (r: JsNumber)
    ensures b != 0.0 ==> r.Finite? && r.v * b == a * 100.0
    ensures b == 0.0 ==> (r.NaN? <==> a == 0.0) && (r.PosInfinity? <==> a > 0.0) && (r.NegInfinity? <==> a < 0.0)
  {
    if b != 0.0 then
      var q := a / b;
      assert q * b == a;
      assert (q * 100.0) * b == (q * b) * 100.0;
      Finite(q * 100.0)
    else if a == 0.0 then NaN
    else if a > 0.0 then PosInfinity
    else NegInfinity
  }
}
