/** Round-to-nearest quantization of one channel row, over the reals. */
module Quantizer {

  function Abs(x: real): real { if x < 0.0 then -x else x }

  function MinReal(a: real, b: real): real { if a <= b then a else b }

  function MaxReal(a: real, b: real): real { if a >= b then a else b }

  /** Round half to even, from the floor and the fraction. */
  function RoundToEven(x: real): int {
    var lower := x.Floor;
    var fraction := x - lower as real;
    var tiesUp := lower % 2 != 0;
    if fraction > 0.5 then lower + 1
    else if fraction < 0.5 then lower
    else if tiesUp then lower + 1
    else lower
  }

  /** The two integers rounding chooses from, and when it takes which. */
  lemma RoundCases(x: real)
    ensures
      var r, fraction := RoundToEven(x), x - x.Floor as real;
      && 0.0 <= fraction < 1.0
      && ((r == x.Floor && fraction <= 0.5) || (r == x.Floor + 1 && fraction >= 0.5))
      && (fraction == 0.5 ==> r % 2 == 0)
  {
  }

  lemma NoneBetween(l: int, m: int)
    ensures m as real <= l as real || m as real >= l as real + 1.0
    ensures m < l ==> m as real <= l as real - 1.0
    ensures m > l + 1 ==> m as real >= l as real + 2.0
  {
    if m < l {
      assert (m + 1) as real <= l as real;
    } else if m > l + 1 {
      assert (l + 2) as real <= m as real;
    }
  }

  /** No integer is nearer; among two equally near ones the even one is taken. */
  lemma RoundIsNearest(x: real, m: int)
    ensures Abs(x - RoundToEven(x) as real) <= 0.5
    ensures Abs(x - RoundToEven(x) as real) <= Abs(x - m as real)
    ensures m != RoundToEven(x) && Abs(x - m as real) == Abs(x - RoundToEven(x) as real) ==> RoundToEven(x) % 2 == 0
  {
    hide RoundToEven;
    RoundCases(x);
    NoneBetween(x.Floor, m);
  }

  const MIN_SCALE := 0.0000000001

  function Code(value: real, lower: real, scale: real, qmax: nat): int
    requires scale > 0.0
  {
    var rounded := RoundToEven((value - lower) / scale);
    var capped := if rounded <= qmax then rounded else qmax;
    if capped >= 0 then capped else 0
  }

  /** How far a code's reconstruction is from the value. */
  function Misfit(value: real, lower: real, scale: real, code: int): real {
    Abs(value - (lower + scale * code as real))
  }

  lemma Scaled(value: real, lower: real, scale: real, code: int)
    requires scale > 0.0
    ensures Misfit(value, lower, scale, code) == scale * Abs((value - lower) / scale - code as real)
  {
    var x := (value - lower) / scale;
    assert value - lower == scale * x;
    assert value - (lower + scale * code as real) == scale * (x - code as real);
    AbsScaled(scale, x - code as real);
  }

  lemma AbsScaled(scale: real, d: real)
    requires scale > 0.0
    ensures Abs(scale * d) == scale * Abs(d)
  {
  }

  lemma Ordered(scale: real, a: real, b: real)
    requires scale > 0.0 && a <= b
    ensures scale * a <= scale * b
  {
  }

  /** A code lies in range and no other code of the range reconstructs the value more closely. */
  lemma CodeIsBest(value: real, lower: real, scale: real, qmax: nat, other: nat)
    requires scale > 0.0 && other <= qmax
    ensures 0 <= Code(value, lower, scale, qmax) <= qmax
    ensures Misfit(value, lower, scale, Code(value, lower, scale, qmax)) <= Misfit(value, lower, scale, other)
  {
    hide Abs, RoundToEven, Misfit;
    var x, code := (value - lower) / scale, Code(value, lower, scale, qmax);
    ClampIsNearest(x, qmax, other);
    assert Abs(x - code as real) <= Abs(x - other as real);
    hide Code;
    Scaled(value, lower, scale, code);
    Scaled(value, lower, scale, other);
    Ordered(scale, Abs(x - code as real), Abs(x - other as real));
  }

  /** Clamping a rounded value into a range keeps it nearest among the integers of the range. */
  lemma ClampIsNearest(x: real, qmax: nat, other: nat)
    requires other <= qmax
    ensures
      var rounded := RoundToEven(x);
      var capped := if rounded <= qmax then rounded else qmax;
      var code := if capped >= 0 then capped else 0;
      0 <= code <= qmax && Abs(x - code as real) <= Abs(x - other as real)
  {
    hide RoundToEven;
    RoundCases(x);
    NoneBetween(x.Floor, other);
    assert 0.0 <= other as real <= qmax as real;
    if RoundToEven(x) > qmax {
      assert x.Floor as real >= qmax as real;
    } else if RoundToEven(x) < 0 {
      assert x.Floor as real <= -1.0;
    }
  }

  /* ----- one row: the scale of its range ----- */

  /** The smallest value of a row. */
  method Lowest(values: seq<real>) returns (m: real)
    requires |values| > 0
    ensures m in values && forall i :: 0 <= i < |values| ==> m <= values[i]
  {
    m := values[0];
    for i := 1 to |values|
      invariant m in values && forall k :: 0 <= k < i ==> m <= values[k]
    {
      m := MinReal(m, values[i]);
    }
  }

  method Highest(values: seq<real>) returns (m: real)
    requires |values| > 0
    ensures m in values && forall i :: 0 <= i < |values| ==> values[i] <= m
  {
    m := values[0];
    for i := 1 to |values|
      invariant m in values && forall k :: 0 <= k < i ==> values[k] <= m
    {
      m := MaxReal(m, values[i]);
    }
  }

  function RangeScale(lower: real, upper: real, qmax: nat): real
    requires qmax > 0
  {
    MaxReal((upper - lower) / qmax as real, MIN_SCALE)
  }

  /** Every value of a row is reconstructed to within half a step: the range clamps never bite. */
  lemma WithinHalfStep(value: real, lower: real, upper: real, scale: real, qmax: nat)
    requires qmax > 0 && lower <= value <= upper && scale == RangeScale(lower, upper, qmax)
    ensures scale > 0.0
    ensures Misfit(value, lower, scale, Code(value, lower, scale, qmax)) <= scale / 2.0
  {
    hide RoundToEven, Abs, Misfit, Code, RangeScale;
    RangeCovers(lower, upper, qmax);
    var x := (value - lower) / scale;
    StepsWithin(value, lower, upper, scale, qmax as real);
    RoundIsNearest(x, 0);
    CodeStays(value, lower, scale, qmax);
    HalfAStep(value, lower, scale, RoundToEven(x));
  }

  lemma CodeStays(value: real, lower: real, scale: real, qmax: nat)
    requires scale > 0.0 && 0.0 <= (value - lower) / scale <= qmax as real
    ensures Code(value, lower, scale, qmax) == RoundToEven((value - lower) / scale)
  {
    hide RoundToEven;
    RoundStays((value - lower) / scale, qmax);
  }

  lemma HalfAStep(value: real, lower: real, scale: real, k: int)
    requires scale > 0.0 && Abs((value - lower) / scale - k as real) <= 0.5
    ensures Misfit(value, lower, scale, k) <= scale / 2.0
  {
    hide Abs, Misfit;
    Scaled(value, lower, scale, k);
    Ordered(scale, Abs((value - lower) / scale - k as real), 0.5);
  }

  lemma StepsWithin(value: real, lower: real, upper: real, scale: real, top: real)
    requires scale > 0.0 && lower <= value <= upper && upper - lower <= scale * top
    ensures 0.0 <= (value - lower) / scale <= top
  {
    var x := (value - lower) / scale;
    assert scale * x == value - lower;
    Between(scale, x, top);
  }

  lemma RangeCovers(lower: real, upper: real, qmax: nat)
    requires qmax > 0
    ensures RangeScale(lower, upper, qmax) > 0.0
    ensures upper - lower <= RangeScale(lower, upper, qmax) * qmax as real
  {
    var q := qmax as real;
    var step := (upper - lower) / q;
    assert step * q == upper - lower;
    Ordered(q, step, RangeScale(lower, upper, qmax));
  }

  /** Half a step is a 62nd of the range, or half the least scale. */
  lemma HalfRange(lower: real, upper: real)
    ensures RangeScale(lower, upper, 31) / 2.0 == MaxReal((upper - lower) / 62.0, MIN_SCALE / 2.0)
  {
    var step := (upper - lower) / 31.0;
    assert step / 2.0 == (upper - lower) / 62.0;
  }

  /** The top of a wide enough range takes the largest code. */
  lemma TopCode(lower: real, upper: real, qmax: nat)
    requires qmax > 0 && upper - lower >= qmax as real * MIN_SCALE
    ensures RangeScale(lower, upper, qmax) > 0.0
    ensures Code(upper, lower, RangeScale(lower, upper, qmax), qmax) == qmax
  {
    hide RoundToEven;
    var q, scale := qmax as real, RangeScale(lower, upper, qmax);
    StepAtLeast(upper - lower, q, MIN_SCALE);
    TopStep(scale, upper - lower, q);
    RoundIsNearest(q, qmax);
  }

  lemma StepAtLeast(range: real, q: real, least: real)
    requires q > 0.0 && range >= q * least
    ensures range / q >= least && (range / q) * q == range
  {
    var step := range / q;
    assert step * q == range;
    if step < least {
      StrictlyBelow(q, step, least);
    }
  }

  lemma StrictlyBelow(q: real, a: real, b: real)
    requires q > 0.0 && a < b
    ensures q * a < q * b
  {
  }

  lemma TopStep(scale: real, range: real, q: real)
    requires scale > 0.0 && scale * q == range
    ensures range / scale == q
  {
  }

  lemma RoundStays(x: real, qmax: nat)
    requires 0.0 <= x <= qmax as real
    ensures 0 <= RoundToEven(x) <= qmax
  {
    RoundCases(x);
    hide RoundToEven;
    assert 0 <= x.Floor <= qmax;
  }

  lemma Between(scale: real, x: real, top: real)
    requires scale > 0.0 && 0.0 <= scale * x <= scale * top
    ensures 0.0 <= x <= top
  {
  }

  /** The fill value of a masked load quantizes to code zero. */
  lemma LowerIsZero(lower: real, scale: real, qmax: nat)
    requires scale > 0.0
    ensures Code(lower, lower, scale, qmax) == 0
  {
    assert (lower - lower) / scale == 0.0;
  }
}
