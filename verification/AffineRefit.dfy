/** The weighted least-squares refit of a quantized row's scale and zero point, over the reals. */
module AffineRefit {
  import opened Quantizer

  /** One token of a row: its weight, its code and its value. */
  datatype Sample = Sample(w: real, c: real, v: real)

  const FLOOR := 0.00000000000000000001

  /* ----- the moments of a row ----- */

  function SumW(s: seq<Sample>): real { if s == [] then 0.0 else SumW(s[1..]) + s[0].w }

  function SumC(s: seq<Sample>): real { if s == [] then 0.0 else SumC(s[1..]) + s[0].w * s[0].c }

  function SumV(s: seq<Sample>): real { if s == [] then 0.0 else SumV(s[1..]) + s[0].w * s[0].v }

  /** Weighted squared spread of the codes around `cm`. */
  function Spread(s: seq<Sample>, cm: real): real {
    if s == [] then 0.0 else Spread(s[1..], cm) + s[0].w * ((s[0].c - cm) * (s[0].c - cm))
  }

  function Cross(s: seq<Sample>, cm: real, vm: real): real {
    if s == [] then 0.0 else Cross(s[1..], cm, vm) + s[0].w * ((s[0].c - cm) * (s[0].v - vm))
  }

  function Variance(s: seq<Sample>, vm: real): real {
    if s == [] then 0.0 else Variance(s[1..], vm) + s[0].w * ((s[0].v - vm) * (s[0].v - vm))
  }

  /** The weighted squared reconstruction error of a scale and a zero point. */
  function Error(s: seq<Sample>, scale: real, zero: real): real {
    if s == [] then 0.0 else Error(s[1..], scale, zero) + Loss(s[0], scale, zero)
  }

  function Loss(x: Sample, scale: real, zero: real): real {
    x.w * Square(x.v - (scale * x.c + zero))
  }

  function Square(x: real): real { x * x }

  /* ----- the kernel's fit ----- */

  datatype Fit = Fit(scale: real, zero: real)

  function WeightSum(s: seq<Sample>): real { MaxReal(SumW(s), FLOOR) }

  function Refit(s: seq<Sample>, scale: real, lower: real): Fit {
    var codeMean := SumC(s) / WeightSum(s);
    var valueMean := SumV(s) / WeightSum(s);
    var denominator := Spread(s, codeMean);
    var numerator := Cross(s, codeMean, valueMean);
    var fittedScale := MaxReal(numerator / MaxReal(denominator, FLOOR), MIN_SCALE);
    if denominator > FLOOR then Fit(fittedScale, valueMean - fittedScale * codeMean) else Fit(scale, lower)
  }

  /** The sums a fit is made of. */
  datatype Moments = Moments(variance: real, cross: real, spread: real, v: real, c: real, w: real)

  function MomentsOf(s: seq<Sample>, cm: real, vm: real): Moments {
    Moments(Variance(s, vm), Cross(s, cm, vm), Spread(s, cm), SumV(s), SumC(s), SumW(s))
  }

  function Plus(a: Moments, b: Moments): Moments {
    Moments(a.variance + b.variance, a.cross + b.cross, a.spread + b.spread, a.v + b.v, a.c + b.c, a.w + b.w)
  }

  function OfOne(x: Sample, cm: real, vm: real): Moments {
    Moments(x.w * ((x.v - vm) * (x.v - vm)), x.w * ((x.c - cm) * (x.v - vm)), x.w * ((x.c - cm) * (x.c - cm)),
            x.w * x.v, x.w * x.c, x.w)
  }

  /** The error as a quadratic in the scale and the offset `d` from the centre line. */
  function Quadratic(m: Moments, scale: real, cm: real, vm: real, d: real): real {
    m.variance - 2.0 * scale * m.cross + scale * scale * m.spread
      - 2.0 * d * (m.v - vm * m.w) + 2.0 * d * scale * (m.c - cm * m.w) + d * d * m.w
  }

  lemma QuadraticAdds(a: Moments, b: Moments, scale: real, cm: real, vm: real, d: real)
    ensures Quadratic(Plus(a, b), scale, cm, vm, d) == Quadratic(a, scale, cm, vm, d) + Quadratic(b, scale, cm, vm, d)
  {
  }

  /** The error of any scale and zero point, seen from any centre (cm, vm). */
  lemma {:induction false} ErrorAround(s: seq<Sample>, scale: real, zero: real, cm: real, vm: real, d: real)
    requires zero == vm - scale * cm + d
    ensures Error(s, scale, zero) == Quadratic(MomentsOf(s, cm, vm), scale, cm, vm, d)
  {
    hide Quadratic, Loss;
    if s == [] {
      NoSamples(scale, cm, vm, d);
    } else {
      ErrorAround(s[1..], scale, zero, cm, vm, d);
      OneSample(s[0], scale, zero, cm, vm, d);
      QuadraticAdds(MomentsOf(s[1..], cm, vm), OfOne(s[0], cm, vm), scale, cm, vm, d);
      assert MomentsOf(s, cm, vm) == Plus(MomentsOf(s[1..], cm, vm), OfOne(s[0], cm, vm));
    }
  }

  lemma NoSamples(scale: real, cm: real, vm: real, d: real)
    ensures Quadratic(MomentsOf([], cm, vm), scale, cm, vm, d) == 0.0
  {
  }

  lemma OneSample(x: Sample, scale: real, zero: real, cm: real, vm: real, d: real)
    requires zero == vm - scale * cm + d
    ensures Loss(x, scale, zero) == Quadratic(OfOne(x, cm, vm), scale, cm, vm, d)
  {
    var a, b := x.v - vm, x.c - cm;
    var e := a - scale * b - d;
    assert Loss(x, scale, zero) == x.w * Square(e) by {
      assert x.v - (scale * x.c + zero) == e;
    }
    assert Square(e)
         == a * a - 2.0 * scale * (a * b) + scale * scale * (b * b) - 2.0 * d * a + 2.0 * d * scale * b + d * d;
  }

  function Parabola(v: real, n: real, d: real, x: real): real {
    v - 2.0 * x * n + x * x * d
  }

  /** Clamped to a floor, the vertex of the parabola is still the best scale at or above the floor. */
  lemma VertexIsBest(v: real, n: real, d: real, floor: real, best: real, scale: real)
    requires d > 0.0 && scale >= floor && best == MaxReal(n / d, floor)
    ensures Parabola(v, n, d, best) <= Parabola(v, n, d, scale)
  {
    var vertex := n / d;
    assert n == vertex * d;
    ParabolaForm(v, vertex, d, best);
    ParabolaForm(v, vertex, d, scale);
    if vertex >= floor {
      assert (scale - vertex) * (scale - vertex) >= 0.0;
      assert d * ((scale - vertex) * (scale - vertex)) >= 0.0;
    } else {
      var x, y := best - vertex, scale - vertex;
      assert 0.0 < x <= y;
      SquareMonotone(x, y);
      assert d * (x * x) <= d * (y * y);
    }
  }

  lemma ParabolaForm(v: real, vertex: real, d: real, x: real)
    ensures v - 2.0 * x * (vertex * d) + x * x * d == v - vertex * vertex * d + d * ((x - vertex) * (x - vertex))
  {
  }

  lemma SquareMonotone(x: real, y: real)
    requires 0.0 <= x <= y
    ensures x * x <= y * y
  {
  }

  lemma MeanCancels(sum: real, w: real)
    requires w > 0.0
    ensures sum - (sum / w) * w == 0.0
  {
  }

  /** The refit never hurts: when the code spread is usable and the weight sum is not clamped, its error is
      at most that of every scale of at least 1e-10 with every zero point. */
  lemma RefitNeverHurts(s: seq<Sample>, scale: real, lower: real, anyScale: real, anyZero: real)
    requires SumW(s) >= FLOOR && Spread(s, SumC(s) / SumW(s)) > FLOOR && anyScale >= MIN_SCALE
    ensures
      var fit := Refit(s, scale, lower);
      Error(s, fit.scale, fit.zero) <= Error(s, anyScale, anyZero)
  {
    hide Quadratic, Parabola, Error, Spread, Cross, Variance, SumW, SumC, SumV;
    var cm, vm := SumC(s) / SumW(s), SumV(s) / SumW(s);
    var m := MomentsOf(s, cm, vm);
    var fit := Refit(s, scale, lower);
    assert fit.scale == MaxReal(m.cross / m.spread, MIN_SCALE) && fit.zero == vm - fit.scale * cm;
    var d := anyZero - (vm - anyScale * cm);
    ErrorAround(s, fit.scale, fit.zero, cm, vm, 0.0);
    ErrorAround(s, anyScale, anyZero, cm, vm, d);
    OnCentreLine(m, fit.scale, cm, vm);
    CentredQuadratic(m, anyScale, cm, vm, d);
    VertexIsBest(m.variance, m.cross, m.spread, MIN_SCALE, fit.scale, anyScale);
    OffsetCosts(d, m.w);
    assert Error(s, fit.scale, fit.zero) == Parabola(m.variance, m.cross, m.spread, fit.scale);
    assert Error(s, anyScale, anyZero) == Parabola(m.variance, m.cross, m.spread, anyScale) + d * d * m.w;
  }

  lemma OffsetCosts(d: real, w: real)
    requires w > 0.0
    ensures d * d * w >= 0.0
  {
    assert d * d >= 0.0;
  }

  lemma OnCentreLine(m: Moments, scale: real, cm: real, vm: real)
    ensures Quadratic(m, scale, cm, vm, 0.0) == Parabola(m.variance, m.cross, m.spread, scale)
  {
    var x, y := m.v - vm * m.w, m.c - cm * m.w;
    assert 2.0 * 0.0 * x == 0.0 && 2.0 * 0.0 * scale * y == 0.0;
  }

  /** From the weighted means the linear terms vanish. */
  lemma CentredQuadratic(m: Moments, scale: real, cm: real, vm: real, d: real)
    requires m.w > 0.0 && cm == m.c / m.w && vm == m.v / m.w
    ensures Quadratic(m, scale, cm, vm, d) == Parabola(m.variance, m.cross, m.spread, scale) + d * d * m.w
  {
    MeanCancels(m.c, m.w);
    MeanCancels(m.v, m.w);
  }

  /** In particular it is never worse than the plain range fit it replaces, and without a usable spread it
      is that fit. */
  lemma RefitVersusRange(s: seq<Sample>, lower: real, upper: real, qmax: nat)
    requires qmax > 0 && SumW(s) >= FLOOR
    ensures
      var scale := RangeScale(lower, upper, qmax);
      var fit := Refit(s, scale, lower);
      Error(s, fit.scale, fit.zero) <= Error(s, scale, lower)
  {
    hide Error, Spread, Cross, SumW, SumC, SumV;
    var scale := RangeScale(lower, upper, qmax);
    if Spread(s, SumC(s) / SumW(s)) > FLOOR {
      RefitNeverHurts(s, scale, lower, scale, lower);
    }
  }

  /** Token scales of at least 1e-10 keep the weight sum above its clamp. */
  lemma {:induction false} WeightsNotClamped(s: seq<Sample>)
    requires s != [] && forall i :: 0 <= i < |s| ==> s[i].w >= FLOOR
    ensures SumW(s) >= FLOOR
  {
    if |s| > 1 {
      WeightsNotClamped(s[1..]);
    }
  }

  /** The hypothesis on the weight sum is needed: below the clamp the refit can turn an exact
      reconstruction into an inexact one.  The weights of a flushed tile never lie there. */
  lemma ClampedRefitCanHurt() returns (s: seq<Sample>, fit: Fit)
    ensures SumW(s) < FLOOR && (forall i :: 0 <= i < |s| ==> s[i].w > 0.0)
    ensures fit == Refit(s, 1.0, 10.0)
    ensures Error(s, 1.0, 10.0) == 0.0 < Error(s, fit.scale, fit.zero)
  {
    var w := FLOOR / 10.0;
    var a, b := Sample(w, 0.0, 10.0), Sample(w, 31.0, 41.0);
    s := [a, b];
    Pair(a, b, 3.1, 5.1);
    fit := Refit(s, 1.0, 10.0);
    assert SumC(s) / WeightSum(s) == 3.1 && SumV(s) / WeightSum(s) == 5.1;
    assert fit.scale >= MIN_SCALE && fit.zero == 5.1 - fit.scale * 3.1;
    PairError(a, b, 1.0, 10.0);
    PairError(a, b, fit.scale, fit.zero);
    Misses(w, 4.9 + fit.scale * 3.1);
    OffsetCosts(41.0 - (fit.scale * 31.0 + fit.zero), w);
  }

  lemma Positive(a: real, b: real)
    requires a > 0.0 && b > 0.0
    ensures a * b > 0.0
  {
  }

  lemma SquarePositive(x: real)
    requires x > 0.0
    ensures Square(x) > 0.0
  {
    TimesPositive(x, x);
    assert Square(x) == Times(x, x);
  }

  function Times(a: real, b: real): real { a * b }

  lemma TimesPositive(a: real, b: real)
    requires a > 0.0 && b > 0.0
    ensures Times(a, b) > 0.0
  {
  }

  lemma Misses(w: real, x: real)
    requires w > 0.0 && x > 0.0
    ensures w * Square(x) > 0.0
  {
    hide Square;
    SquarePositive(x);
    Positive(w, Square(x));
  }

  lemma Single(b: Sample, cm: real, vm: real, scale: real, zero: real)
    ensures SumW([b]) == b.w && SumC([b]) == b.w * b.c && SumV([b]) == b.w * b.v
    ensures Spread([b], cm) == b.w * ((b.c - cm) * (b.c - cm)) && Cross([b], cm, vm) == b.w * ((b.c - cm) * (b.v - vm))
    ensures Error([b], scale, zero) == Loss(b, scale, zero)
  {
    hide Loss;
    assert [b][1..] == [];
  }

  lemma Pair(a: Sample, b: Sample, cm: real, vm: real)
    ensures SumW([a, b]) == b.w + a.w && SumC([a, b]) == b.w * b.c + a.w * a.c && SumV([a, b]) == b.w * b.v + a.w * a.v
    ensures Spread([a, b], cm) == b.w * ((b.c - cm) * (b.c - cm)) + a.w * ((a.c - cm) * (a.c - cm))
    ensures Cross([a, b], cm, vm) == b.w * ((b.c - cm) * (b.v - vm)) + a.w * ((a.c - cm) * (a.v - vm))
  {
    assert [a, b][1..] == [b];
    Single(b, cm, vm, 0.0, 0.0);
  }

  lemma PairError(a: Sample, b: Sample, scale: real, zero: real)
    ensures Error([a, b], scale, zero) == Loss(b, scale, zero) + Loss(a, scale, zero)
  {
    hide Loss;
    assert [a, b][1..] == [b];
    Single(b, 0.0, 0.0, scale, zero);
  }
}
