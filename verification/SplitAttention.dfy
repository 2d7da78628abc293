/** Attention over splits of the selected candidates: every split returns a normalized partial output and
    its log-sum-exp, and a merge recombines them. */
module SplitAttention {
  import opened Collectives

  /** An exponential and its logarithm, to the natural base or to base two. */
  datatype Exponential = Exponential(power: real -> real, logarithm: real -> real) {
    ghost predicate Lawful() {
      && (forall x: real :: power(x) > 0.0)
      && (forall x: real, y: real :: power(x + y) == power(x) * power(y))
      && (forall x: real :: logarithm(power(x)) == x)
      && (forall y: real :: y > 0.0 ==> power(logarithm(y)) == y)
    }

    function Exp(x: real): (p: real)
      requires Lawful()
      ensures p > 0.0
    {
      power(x)
    }

    function Log(y: real): real { logarithm(y) }
  }

  lemma Laws(e: Exponential, x: real, y: real)
    requires e.Lawful()
    ensures e.Exp(x) == e.Exp(y) * e.Exp(x - y)
    ensures e.Log(e.Exp(x)) == x
    ensures y > 0.0 ==> e.Exp(e.Log(y)) == y
  {
    assert e.power(y + (x - y)) == e.power(y) * e.power(x - y);
    assert y + (x - y) == x;
  }

  /** One selected candidate of one head: masked out, or its logit and its value vector. */
  datatype Candidate = Inactive | Active(logit: real, value: seq<real>)

  datatype Lse = MinusInfinity | Finite(value: real)

  /** A normalized output and its log-sum-exp. */
  datatype Partial = Partial(output: seq<real>, lse: Lse)

  ghost predicate Shaped(cands: seq<Candidate>, dims: nat) {
    forall k :: 0 <= k < |cands| && cands[k].Active? ==> |cands[k].value| == dims
  }

  function Weight(e: Exponential, c: Candidate, shift: real): real
    requires e.Lawful()
  {
    if c.Active? then e.Exp(c.logit - shift) else 0.0
  }

  /** The sum of the exponentials of the active logits, relative to `shift`. */
  function ExpSum(e: Exponential, cands: seq<Candidate>, shift: real): (s: real)
    requires e.Lawful()
    ensures s >= 0.0
  {
    if cands == [] then 0.0 else ExpSum(e, cands[..|cands| - 1], shift) + Weight(e, cands[|cands| - 1], shift)
  }

  function ValueAt(c: Candidate, d: nat): real {
    if c.Active? && d < |c.value| then c.value[d] else 0.0
  }

  /** The sum of the values along one dimension, weighted by the exponentials. */
  function WeightedSum(e: Exponential, cands: seq<Candidate>, shift: real, d: nat): real
    requires e.Lawful()
  {
    if cands == [] then 0.0
    else
      WeightedSum(e, cands[..|cands| - 1], shift, d)
      + Weight(e, cands[|cands| - 1], shift) * ValueAt(cands[|cands| - 1], d)
  }

  predicate HasActive(cands: seq<Candidate>) {
    exists k :: 0 <= k < |cands| && cands[k].Active?
  }

  /** Attention over all candidates at once: the softmax-weighted sum of the values and the log-sum-exp of
      the logits; zero and minus infinity without an active candidate. */
  function OneShot(e: Exponential, cands: seq<Candidate>, dims: nat): (p: Partial)
    requires e.Lawful()
    ensures |p.output| == dims
  {
    if HasActive(cands) then
      SumIsPositive(e, cands, 0.0);
      Partial(seq(dims, d requires 0 <= d < dims => WeightedSum(e, cands, 0.0, d) / ExpSum(e, cands, 0.0)),
              Finite(e.Log(ExpSum(e, cands, 0.0))))
    else Partial(seq(dims, _ => 0.0), MinusInfinity)
  }

  lemma {:induction false} SumIsPositive(e: Exponential, cands: seq<Candidate>, shift: real)
    requires e.Lawful()
    ensures HasActive(cands) <==> ExpSum(e, cands, shift) > 0.0
  {
    if cands != [] {
      var front, last := cands[..|cands| - 1], cands[|cands| - 1];
      SumIsPositive(e, front, shift);
      if HasActive(front) {
        var k :| 0 <= k < |front| && front[k].Active?;
        assert cands[k].Active?;
      } else if last.Active? {
        assert cands[|cands| - 1].Active?;
      }
    }
  }

  function Times(x: real, a: real): real { x * a }

  /** The values of the active candidates along one dimension lie between `lo` and `hi`. */
  predicate ValuesWithin(cands: seq<Candidate>, d: nat, lo: real, hi: real) {
    forall k :: 0 <= k < |cands| && cands[k].Active? ==> lo <= ValueAt(cands[k], d) <= hi
  }

  lemma WeightWithin(w: real, v: real, lo: real, hi: real)
    requires w >= 0.0 && lo <= v <= hi
    ensures Times(w, lo) <= Times(w, v) <= Times(w, hi)
  {
  }

  lemma TermWithin(e: Exponential, c: Candidate, d: nat, lo: real, hi: real)
    requires e.Lawful() && (c.Active? ==> lo <= ValueAt(c, d) <= hi)
    ensures Times(Weight(e, c, 0.0), lo) <= Times(Weight(e, c, 0.0), ValueAt(c, d)) <= Times(Weight(e, c, 0.0), hi)
  {
    hide Exponential.Lawful;
    if c.Active? {
      WeightWithin(Weight(e, c, 0.0), ValueAt(c, d), lo, hi);
    }
  }

  lemma SumTimes(f: real, w: real, x: real)
    ensures Times(f + w, x) == Times(f, x) + Times(w, x)
  {
  }

  lemma {:induction false} SumsWithin(e: Exponential, cands: seq<Candidate>, d: nat, lo: real, hi: real)
    requires e.Lawful() && ValuesWithin(cands, d, lo, hi)
    ensures Times(ExpSum(e, cands, 0.0), lo) <= WeightedSum(e, cands, 0.0, d) <= Times(ExpSum(e, cands, 0.0), hi)
  {
    hide Exponential.Lawful, ValueAt, Weight, ExpSum, WeightedSum, Times;
    if cands == [] {
      NothingSummed(e, d, lo);
      NothingSummed(e, d, hi);
    } else {
      var front, last := cands[..|cands| - 1], cands[|cands| - 1];
      SumsWithin(e, front, d, lo, hi);
      TermWithin(e, last, d, lo, hi);
      OneMoreSummed(e, cands, d);
      SumTimes(ExpSum(e, front, 0.0), Weight(e, last, 0.0), lo);
      SumTimes(ExpSum(e, front, 0.0), Weight(e, last, 0.0), hi);
    }
  }

  lemma NothingSummed(e: Exponential, d: nat, x: real)
    requires e.Lawful()
    ensures Times(ExpSum(e, [], 0.0), x) == WeightedSum(e, [], 0.0, d) == 0.0
  {
  }

  lemma OneMoreSummed(e: Exponential, cands: seq<Candidate>, d: nat)
    requires e.Lawful() && cands != []
    ensures var front, last := cands[..|cands| - 1], cands[|cands| - 1];
      && ExpSum(e, cands, 0.0) == ExpSum(e, front, 0.0) + Weight(e, last, 0.0)
      && WeightedSum(e, cands, 0.0, d) == WeightedSum(e, front, 0.0, d) + Times(Weight(e, last, 0.0), ValueAt(last, d))
  {
    hide Exponential.Lawful;
  }

  lemma QuotientWithin(x: real, s: real, lo: real, hi: real)
    requires s > 0.0 && Times(s, lo) <= x <= Times(s, hi)
    ensures lo <= x / s <= hi
  {
    var q := x / s;
    assert q * s == x;
  }

  /** Attention is a mean: along every dimension the output lies between the values of the active candidates. */
  lemma OutputIsMean(e: Exponential, cands: seq<Candidate>, dims: nat, d: nat, lo: real, hi: real)
    requires e.Lawful() && HasActive(cands) && d < dims && ValuesWithin(cands, d, lo, hi)
    ensures lo <= OneShot(e, cands, dims).output[d] <= hi
  {
    hide Exponential.Lawful, ExpSum, WeightedSum, ValuesWithin;
    SumIsPositive(e, cands, 0.0);
    SumsWithin(e, cands, d, lo, hi);
    QuotientWithin(WeightedSum(e, cands, 0.0, d), ExpSum(e, cands, 0.0), lo, hi);
  }

  /** Over two active candidates the values weigh as the exponentials of their logits; over one, the output is its
      value and the log-sum-exp its logit. */
  lemma WeightsFollowLogits(e: Exponential, a: Candidate, b: Candidate, dims: nat, d: nat)
    requires e.Lawful() && a.Active? && b.Active? && d < dims == |a.value| == |b.value|
    ensures OneShot(e, [a], dims) == Partial(a.value, Finite(a.logit))
    ensures OneShot(e, [a, b], dims).output[d] * (e.power(a.logit) + e.power(b.logit))
         == e.power(a.logit) * a.value[d] + e.power(b.logit) * b.value[d]
  {
    hide Exponential.Lawful;
    Laws(e, a.logit, 0.0);
    SumOfOne(e, a);
    SumOfTwo(e, a, b, d);
    forall k: nat | k < dims
      ensures OneShot(e, [a], dims).output[k] == a.value[k]
    {
      ValueOfOne(e, a, k);
      QuotientWithin(e.Exp(a.logit) * a.value[k], e.Exp(a.logit), a.value[k], a.value[k]);
    }
    assert [a][0].Active? && [a, b][0].Active?;
  }

  lemma SumOfOne(e: Exponential, a: Candidate)
    requires e.Lawful() && a.Active?
    ensures ExpSum(e, [a], 0.0) == e.Exp(a.logit)
  {
    hide Exponential.Lawful;
    assert [a][..0] == [] && a.logit - 0.0 == a.logit;
  }

  lemma ValueOfOne(e: Exponential, a: Candidate, d: nat)
    requires e.Lawful() && a.Active? && d < |a.value|
    ensures WeightedSum(e, [a], 0.0, d) == e.Exp(a.logit) * a.value[d]
  {
    hide Exponential.Lawful;
    assert [a][..0] == [] && a.logit - 0.0 == a.logit;
  }

  lemma SumOfTwo(e: Exponential, a: Candidate, b: Candidate, d: nat)
    requires e.Lawful() && a.Active? && b.Active? && d < |a.value| == |b.value|
    ensures ExpSum(e, [a, b], 0.0) == e.Exp(a.logit) + e.Exp(b.logit)
    ensures WeightedSum(e, [a, b], 0.0, d) == e.Exp(a.logit) * a.value[d] + e.Exp(b.logit) * b.value[d]
  {
    hide Exponential.Lawful;
    assert [a, b][..1] == [a] && b.logit - 0.0 == b.logit;
    SumOfOne(e, a);
    ValueOfOne(e, a, d);
  }

  /** Shifting the logits divides every sum by the exponential of the shift. */
  lemma {:induction false} ShiftExpSum(e: Exponential, cands: seq<Candidate>, shift: real)
    requires e.Lawful()
    ensures ExpSum(e, cands, 0.0) == e.Exp(shift) * ExpSum(e, cands, shift)
  {
    hide Exponential.Lawful, Exponential.Exp, Weight;
    if cands != [] {
      var front, last := cands[..|cands| - 1], cands[|cands| - 1];
      ShiftExpSum(e, front, shift);
      ShiftWeight(e, last, shift);
      Regroup(e.Exp(shift), ExpSum(e, front, shift), Weight(e, last, shift), 1.0);
    }
  }

  lemma {:induction false} ShiftWeightedSum(e: Exponential, cands: seq<Candidate>, shift: real, d: nat)
    requires e.Lawful()
    ensures WeightedSum(e, cands, 0.0, d) == e.Exp(shift) * WeightedSum(e, cands, shift, d)
  {
    hide Exponential.Lawful, Exponential.Exp, Weight, ValueAt;
    if cands != [] {
      var front, last := cands[..|cands| - 1], cands[|cands| - 1];
      ShiftWeightedSum(e, front, shift, d);
      ShiftWeight(e, last, shift);
      Regroup(e.Exp(shift), WeightedSum(e, front, shift, d), Weight(e, last, shift), ValueAt(last, d));
    }
  }

  lemma ShiftWeight(e: Exponential, c: Candidate, shift: real)
    requires e.Lawful()
    ensures Weight(e, c, 0.0) == e.Exp(shift) * Weight(e, c, shift)
  {
    if c.Active? {
      Laws(e, c.logit, shift);
      assert c.logit - 0.0 == c.logit;
    }
  }

  lemma Regroup(a: real, b: real, c: real, v: real)
    ensures a * b + (a * c) * v == a * (b + c * v)
  {
  }

  /* ----- one split ----- */

  /** The largest active logit of a split, zero without any. */
  method LargestLogit(cands: seq<Candidate>) returns (max: real)
    ensures forall k :: 0 <= k < |cands| && cands[k].Active? ==> cands[k].logit <= max
    ensures HasActive(cands) ==> exists k :: 0 <= k < |cands| && cands[k].Active? && cands[k].logit == max
    ensures !HasActive(cands) ==> max == 0.0
  {
    max := 0.0;
    var seen := false;
    for k := 0 to |cands|
      invariant seen <==> exists j :: 0 <= j < k && cands[j].Active?
      invariant forall j :: 0 <= j < k && cands[j].Active? ==> cands[j].logit <= max
      invariant seen ==> exists j :: 0 <= j < k && cands[j].Active? && cands[j].logit == max
      invariant !seen ==> max == 0.0
    {
      if cands[k].Active? {
        if !seen || cands[k].logit > max {
          max := cands[k].logit;
        }
        seen := true;
      }
    }
  }

  /** The value rows weighted by the probabilities, along one dimension. */
  function ProbabilitySum(e: Exponential, cands: seq<Candidate>, shift: real, denominator: real, d: nat): real
    requires e.Lawful() && denominator != 0.0
  {
    if cands == [] then 0.0
    else
      var last := cands[|cands| - 1];
      ProbabilitySum(e, cands[..|cands| - 1], shift, denominator, d)
          + (Weight(e, last, shift) / denominator) * ValueAt(last, d)
  }

  lemma {:induction false} ProbabilitiesNormalize(e: Exponential, cands: seq<Candidate>, shift: real, denominator: real,
                                                  d: nat)
    requires e.Lawful() && denominator > 0.0
    ensures ProbabilitySum(e, cands, shift, denominator, d) * denominator == WeightedSum(e, cands, shift, d)
  {
    hide Weight, ValueAt, Exponential.Lawful;
    if cands != [] {
      ProbabilitiesNormalize(e, cands[..|cands| - 1], shift, denominator, d);
      Scale(Weight(e, cands[|cands| - 1], shift), denominator, ValueAt(cands[|cands| - 1], d));
    }
  }

  lemma Scale(w: real, denominator: real, v: real)
    requires denominator > 0.0
    ensures ((w / denominator) * v) * denominator == w * v
  {
    assert (w / denominator) * denominator == w;
  }

  lemma QuotientIs(x: real, denominator: real, y: real)
    requires denominator > 0.0 && x * denominator == y
    ensures y / denominator == x
  {
  }

  /** One split: softmax relative to its own maximum, and a normalized partial output. */
  method SplitKernel(e: Exponential, cands: seq<Candidate>, dims: nat) returns (p: Partial)
    requires e.Lawful()
    ensures p == OneShot(e, cands, dims)
  {
    hide Exponential.Lawful, ExpSum, WeightedSum, ProbabilitySum;
    var safeMax := LargestLogit(cands);
    var denominator := ExpSum(e, cands, safeMax);
    SumIsPositive(e, cands, safeMax);
    var lse := if HasActive(cands) then Finite(safeMax + e.Log(denominator)) else MinusInfinity;
    var output := [];
    for d := 0 to dims
      invariant output == OneShot(e, cands, dims).output[..d]
    {
      output := output + [if denominator > 0.0 then ProbabilitySum(e, cands, safeMax, denominator, d) else 0.0];
      SplitOutput(e, cands, dims, safeMax, d);
    }
    SplitLse(e, cands, dims, safeMax);
    p := Partial(output, lse);
  }

  lemma SplitOutput(e: Exponential, cands: seq<Candidate>, dims: nat, shift: real, d: nat)
    requires e.Lawful() && d < dims
    ensures
      var denominator := ExpSum(e, cands, shift);
      OneShot(e, cands, dims).output[d] ==
        if denominator > 0.0 then ProbabilitySum(e, cands, shift, denominator, d) else 0.0
  {
    hide Exponential.Lawful, ExpSum, WeightedSum, ProbabilitySum, HasActive;
    var denominator := ExpSum(e, cands, shift);
    SumIsPositive(e, cands, shift);
    SumIsPositive(e, cands, 0.0);
    if denominator > 0.0 {
      ProbabilitiesNormalize(e, cands, shift, denominator, d);
      ShiftExpSum(e, cands, shift);
      ShiftWeightedSum(e, cands, shift, d);
      SameQuotient(e.Exp(shift), ProbabilitySum(e, cands, shift, denominator, d), denominator,
                   WeightedSum(e, cands, 0.0, d), ExpSum(e, cands, 0.0));
    }
  }

  lemma SameQuotient(a: real, q: real, b: real, x: real, y: real)
    requires a > 0.0 && b > 0.0 && x == a * (q * b) && y == a * b && y > 0.0
    ensures x / y == q
  {
    assert x == q * y;
    QuotientIs(q, y, x);
  }

  lemma SplitLse(e: Exponential, cands: seq<Candidate>, dims: nat, shift: real)
    requires e.Lawful()
    ensures HasActive(cands) ==> OneShot(e, cands, dims).lse == Finite(shift + e.Log(ExpSum(e, cands, shift)))
  {
    hide ExpSum, WeightedSum, HasActive;
    SumIsPositive(e, cands, shift);
    SumIsPositive(e, cands, 0.0);
    if HasActive(cands) {
      ShiftExpSum(e, cands, shift);
      LogOfProduct(e, shift, ExpSum(e, cands, shift), ExpSum(e, cands, 0.0));
    }
  }

  lemma LogOfProduct(e: Exponential, x: real, y: real, z: real)
    requires e.Lawful() && y > 0.0 && z == e.Exp(x) * y
    ensures e.Log(z) == x + e.Log(y)
  {
    hide Exponential.Lawful, Exponential.Exp, Exponential.Log;
    var l := e.Log(y);
    Laws(e, x + l, x);
    Laws(e, 0.0, y);
    assert x + l - x == l;
    assert e.Exp(x + l) == z;
  }

  /* ----- merging the splits ----- */

  function LseWeight(e: Exponential, p: Partial, shift: real): real
    requires e.Lawful()
  {
    if p.lse.Finite? then e.Exp(p.lse.value - shift) else 0.0
  }

  function LseSum(e: Exponential, parts: seq<Partial>, shift: real): real
    requires e.Lawful()
  {
    if parts == [] then 0.0 else LseSum(e, parts[..|parts| - 1], shift) + LseWeight(e, parts[|parts| - 1], shift)
  }

  function OutputAt(p: Partial, d: nat): real {
    if d < |p.output| then p.output[d] else 0.0
  }

  /** The partial outputs weighted by their normalized weights, along one dimension. */
  function MergedSum(e: Exponential, parts: seq<Partial>, shift: real, denominator: real, d: nat): real
    requires e.Lawful() && denominator != 0.0
  {
    if parts == [] then 0.0
    else
      var last := parts[|parts| - 1];
      MergedSum(e, parts[..|parts| - 1], shift, denominator, d)
          + OutputAt(last, d) * (LseWeight(e, last, shift) / denominator)
  }

  /** Each part is the attention over its own split. */
  ghost predicate PartsOf(e: Exponential, parts: seq<Partial>, splits: seq<seq<Candidate>>, dims: nat)
    requires e.Lawful()
  {
    |parts| == |splits| && forall s :: 0 <= s < |parts| ==> parts[s] == OneShot(e, splits[s], dims)
  }

  /** The weight of a part is its share of the exponentials. */
  lemma PartWeight(e: Exponential, cands: seq<Candidate>, dims: nat, shift: real)
    requires e.Lawful()
    ensures LseWeight(e, OneShot(e, cands, dims), shift) * e.Exp(shift) == ExpSum(e, cands, 0.0)
  {
    hide ExpSum, WeightedSum, HasActive, Exponential.Lawful, Exponential.Exp, Exponential.Log;
    SumIsPositive(e, cands, 0.0);
    if HasActive(cands) {
      var total := ExpSum(e, cands, 0.0);
      Laws(e, 0.0, total);
      Laws(e, e.Log(total), shift);
    }
  }

  lemma PartOutput(e: Exponential, cands: seq<Candidate>, dims: nat, d: nat)
    requires e.Lawful() && d < dims
    ensures OutputAt(OneShot(e, cands, dims), d) * ExpSum(e, cands, 0.0) == WeightedSum(e, cands, 0.0, d)
  {
    hide ExpSum, WeightedSum, HasActive, Exponential.Lawful;
    SumIsPositive(e, cands, 0.0);
    if HasActive(cands) {
      var x, y := WeightedSum(e, cands, 0.0, d), ExpSum(e, cands, 0.0);
      assert (x / y) * y == x;
    } else {
      NothingWeighted(e, cands, d);
    }
  }

  lemma FrontActive(cands: seq<Candidate>)
    requires cands != []
    ensures HasActive(cands[..|cands| - 1]) ==> HasActive(cands)
  {
    var front := cands[..|cands| - 1];
    if k :| 0 <= k < |front| && front[k].Active? {
      assert cands[k].Active?;
    }
  }

  lemma {:induction false} NothingWeighted(e: Exponential, cands: seq<Candidate>, d: nat)
    requires e.Lawful() && !HasActive(cands)
    ensures WeightedSum(e, cands, 0.0, d) == 0.0
  {
    if cands != [] {
      var front := cands[..|cands| - 1];
      assert cands[|cands| - 1].Inactive?;
      FrontActive(cands);
      NothingWeighted(e, front, d);
    }
  }

  lemma {:induction false} ExpSumJoin(e: Exponential, a: seq<Candidate>, b: seq<Candidate>)
    requires e.Lawful()
    ensures ExpSum(e, a + b, 0.0) == ExpSum(e, a, 0.0) + ExpSum(e, b, 0.0)
  {
    hide Weight, Exponential.Lawful;
    if b == [] {
      assert a + b == a;
    } else {
      assert (a + b)[..|a + b| - 1] == a + b[..|b| - 1];
      ExpSumJoin(e, a, b[..|b| - 1]);
    }
  }

  lemma {:induction false} WeightedSumJoin(e: Exponential, a: seq<Candidate>, b: seq<Candidate>, d: nat)
    requires e.Lawful()
    ensures WeightedSum(e, a + b, 0.0, d) == WeightedSum(e, a, 0.0, d) + WeightedSum(e, b, 0.0, d)
  {
    hide Weight, ValueAt, Exponential.Lawful;
    if b == [] {
      assert a + b == a;
    } else {
      assert (a + b)[..|a + b| - 1] == a + b[..|b| - 1];
      WeightedSumJoin(e, a, b[..|b| - 1], d);
    }
  }

  /** The weights add up to the exponentials of all splits. */
  lemma {:induction false} WeightsAddUp(e: Exponential, parts: seq<Partial>, splits: seq<seq<Candidate>>, dims: nat,
                                        shift: real)
    requires e.Lawful() && PartsOf(e, parts, splits, dims)
    ensures LseSum(e, parts, shift) * e.Exp(shift) == ExpSum(e, AllGather(splits), 0.0)
  {
    hide LseWeight, OneShot, ExpSum, Exponential.Lawful, Exponential.Exp;
    if parts == [] {
      NoExponentials(e);
    } else {
      var front, last := |parts| - 1, parts[|parts| - 1];
      WeightsAddUp(e, parts[..front], splits[..front], dims, shift);
      PartWeight(e, splits[front], dims, shift);
      ExpSumJoin(e, AllGather(splits[..front]), splits[front]);
      Regroup(e.Exp(shift), LseSum(e, parts[..front], shift), LseWeight(e, last, shift), 1.0);
    }
  }

  lemma NoExponentials(e: Exponential)
    requires e.Lawful()
    ensures ExpSum(e, [], 0.0) == 0.0
  {
  }

  /** The merged output, undone from its normalization, is the weighted sum over all splits. */
  lemma {:induction false} OutputsAddUp(e: Exponential, parts: seq<Partial>, splits: seq<seq<Candidate>>, dims: nat,
                                        shift: real,
                                        denominator: real, d: nat)
    requires e.Lawful() && PartsOf(e, parts, splits, dims) && denominator > 0.0 && d < dims
    ensures MergedSum(e, parts, shift, denominator, d) * (denominator * e.Exp(shift))
         == WeightedSum(e, AllGather(splits), 0.0, d)
  {
    hide LseWeight, OneShot, OutputAt, ExpSum, WeightedSum, Exponential.Lawful, Exponential.Exp;
    if parts == [] {
      NothingWeighted(e, [], d);
    } else {
      var front, last := |parts| - 1, parts[|parts| - 1];
      OutputsAddUp(e, parts[..front], splits[..front], dims, shift, denominator, d);
      PartWeight(e, splits[front], dims, shift);
      PartOutput(e, splits[front], dims, d);
      WeightedSumJoin(e, AllGather(splits[..front]), splits[front], d);
      OneTerm(OutputAt(last, d), LseWeight(e, last, shift), denominator, e.Exp(shift),
          MergedSum(e, parts[..front], shift, denominator, d));
    }
  }

  lemma OneTerm(output: real, weight: real, denominator: real, scale: real, rest: real)
    requires denominator > 0.0
    ensures (rest + output * (weight / denominator)) * (denominator * scale)
         == rest * (denominator * scale) + output * (weight * scale)
  {
    var q := weight / denominator;
    assert q * denominator == weight;
    assert (output * q) * (denominator * scale) == output * ((q * denominator) * scale);
  }

  /** The largest log-sum-exp of the parts, zero when all are empty. */
  method LargestLse(parts: seq<Partial>) returns (max: Lse)
    ensures max.Finite? <==> exists s :: 0 <= s < |parts| && parts[s].lse.Finite?
    ensures forall s :: 0 <= s < |parts| && parts[s].lse.Finite? ==> max.Finite? && parts[s].lse.value <= max.value
  {
    max := MinusInfinity;
    for s := 0 to |parts|
      invariant max.Finite? <==> exists j :: 0 <= j < s && parts[j].lse.Finite?
      invariant forall j :: 0 <= j < s && parts[j].lse.Finite? ==> max.Finite? && parts[j].lse.value <= max.value
    {
      if parts[s].lse.Finite? && (max.MinusInfinity? || parts[s].lse.value > max.value) {
        max := parts[s].lse;
      }
    }
  }

  /** Merge the parts: for any way of cutting the candidates into splits, some of them empty, the result is
      the attention over all candidates at once. */
  method MergeKernel(e: Exponential, parts: seq<Partial>, ghost splits: seq<seq<Candidate>>, dims: nat)
    returns (p: Partial)
    requires e.Lawful() && PartsOf(e, parts, splits, dims)
    ensures p == OneShot(e, AllGather(splits), dims)
  {
    hide Exponential.Lawful, LseSum, MergedSum, OneShot, PartsOf, AllGather;
    var globalMax := LargestLse(parts);
    var safeMax := if globalMax.Finite? then globalMax.value else 0.0;
    var denominator := LseSum(e, parts, safeMax);
    MergeHasActive(e, parts, splits, dims, safeMax);
    var lse := if globalMax.Finite? then Finite(safeMax + e.Log(denominator)) else MinusInfinity;
    var output := [];
    OutputLength(e, AllGather(splits), dims);
    for d := 0 to dims
      invariant output == OneShot(e, AllGather(splits), dims).output[..d]
    {
      MergeOutput(e, parts, splits, dims, safeMax, d);
      output := output + [if denominator > 0.0 then MergedSum(e, parts, safeMax, denominator, d) else 0.0];
    }
    MergeLse(e, parts, splits, dims, safeMax);
    p := Partial(output, lse);
  }

  lemma OutputLength(e: Exponential, cands: seq<Candidate>, dims: nat)
    requires e.Lawful()
    ensures |OneShot(e, cands, dims).output| == dims
  {
  }

  lemma {:induction false} SumOfWeights(e: Exponential, parts: seq<Partial>, shift: real)
    requires e.Lawful()
    ensures (exists s :: 0 <= s < |parts| && parts[s].lse.Finite?) <==> LseSum(e, parts, shift) > 0.0
    ensures LseSum(e, parts, shift) >= 0.0
  {
    if parts != [] {
      var front := parts[..|parts| - 1];
      SumOfWeights(e, front, shift);
      if s :| 0 <= s < |front| && front[s].lse.Finite? {
        assert parts[s].lse.Finite?;
      }
      if parts[|parts| - 1].lse.Finite? {
        assert parts[|parts| - 1].lse.Finite?;
      }
    }
  }

  lemma MergeHasActive(e: Exponential, parts: seq<Partial>, splits: seq<seq<Candidate>>, dims: nat, shift: real)
    requires e.Lawful() && PartsOf(e, parts, splits, dims)
    ensures LseSum(e, parts, shift) > 0.0 <==> HasActive(AllGather(splits))
    ensures (exists s :: 0 <= s < |parts| && parts[s].lse.Finite?) <==> HasActive(AllGather(splits))
  {
    hide LseSum, PartsOf, AllGather, HasActive, Exponential.Lawful, Exponential.Exp;
    SumOfWeights(e, parts, shift);
    WeightsAddUp(e, parts, splits, dims, shift);
    SumIsPositive(e, AllGather(splits), 0.0);
    SignOfProduct(LseSum(e, parts, shift), e.Exp(shift));
  }

  lemma SignOfProduct(x: real, a: real)
    requires a > 0.0 && x >= 0.0
    ensures x > 0.0 <==> x * a > 0.0
  {
  }

  lemma MergeOutput(e: Exponential, parts: seq<Partial>, splits: seq<seq<Candidate>>, dims: nat, shift: real, d: nat)
    requires e.Lawful() && PartsOf(e, parts, splits, dims) && d < dims
    ensures
      var denominator := LseSum(e, parts, shift);
      OneShot(e, AllGather(splits), dims).output[d]
        == if denominator > 0.0 then MergedSum(e, parts, shift, denominator, d) else 0.0
  {
    hide LseSum, MergedSum, PartsOf, AllGather, HasActive, ExpSum, WeightedSum, Exponential.Lawful, Exponential.Exp;
    var denominator, all := LseSum(e, parts, shift), AllGather(splits);
    MergeHasActive(e, parts, splits, dims, shift);
    if denominator > 0.0 {
      WeightsAddUp(e, parts, splits, dims, shift);
      OutputsAddUp(e, parts, splits, dims, shift, denominator, d);
      SumIsPositive(e, all, 0.0);
      QuotientIs(MergedSum(e, parts, shift, denominator, d), ExpSum(e, all, 0.0), WeightedSum(e, all, 0.0, d));
    }
  }

  lemma MergeLse(e: Exponential, parts: seq<Partial>, splits: seq<seq<Candidate>>, dims: nat, shift: real)
    requires e.Lawful() && PartsOf(e, parts, splits, dims)
    ensures
      OneShot(e, AllGather(splits), dims).lse ==
        if HasActive(AllGather(splits)) then Finite(shift + e.Log(LseSum(e, parts, shift))) else MinusInfinity
  {
    hide LseSum, PartsOf, AllGather, HasActive, ExpSum, WeightedSum, Exponential.Lawful, Exponential.Exp;
    MergeHasActive(e, parts, splits, dims, shift);
    WeightsAddUp(e, parts, splits, dims, shift);
    if HasActive(AllGather(splits)) {
      LogOfProduct(e, shift, LseSum(e, parts, shift), ExpSum(e, AllGather(splits), 0.0));
    }
  }

  /* ----- splitting and merging ----- */

  /** Splitting in any way and merging computes the attention over all candidates. */
  method SplitAndMerge(e: Exponential, splits: seq<seq<Candidate>>, dims: nat) returns (p: Partial)
    requires e.Lawful()
    ensures p == OneShot(e, AllGather(splits), dims)
  {
    hide OneShot, Exponential.Lawful;
    var parts := [];
    for s := 0 to |splits|
      invariant |parts| == s && forall k :: 0 <= k < s ==> parts[k] == OneShot(e, splits[k], dims)
    {
      var part := SplitKernel(e, splits[s], dims);
      parts := parts + [part];
    }
    p := MergeKernel(e, parts, splits, dims);
  }

  /* ----- the base-two merge ----- */

  function Over(x: real, a: real): real
    requires a != 0.0
  {
    x / a
  }

  /** Base two from the natural base: the exponent is scaled by ln 2, the logarithm divided by it. */
  function BaseTwo(e: Exponential, ln2: real): Exponential
    requires ln2 != 0.0
  {
    Exponential(x => e.power(Times(x, ln2)), y => Over(e.logarithm(y), ln2))
  }

  lemma LawsAt(e: Exponential, x: real, y: real)
    requires e.Lawful()
    ensures e.power(x) > 0.0 && e.power(x + y) == e.power(x) * e.power(y)
    ensures e.logarithm(e.power(x)) == x && (y > 0.0 ==> e.power(e.logarithm(y)) == y)
  {
  }

  lemma FromLaws(e: Exponential)
    requires forall x: real :: e.power(x) > 0.0 && e.logarithm(e.power(x)) == x
    requires forall x: real, y: real :: e.power(x + y) == e.power(x) * e.power(y)
    requires forall y: real :: y > 0.0 ==> e.power(e.logarithm(y)) == y
    ensures e.Lawful()
  {
  }

  lemma BaseTwoIs(e: Exponential, ln2: real, x: real)
    requires ln2 != 0.0
    ensures BaseTwo(e, ln2).power(x) == e.power(Times(x, ln2))
    ensures BaseTwo(e, ln2).logarithm(x) == Over(e.logarithm(x), ln2)
  {
  }

  lemma BaseTwoLawful(e: Exponential, ln2: real)
    requires e.Lawful() && ln2 != 0.0
    ensures BaseTwo(e, ln2).Lawful()
  {
    hide Exponential.Lawful, BaseTwo, Times, Over;
    var b := BaseTwo(e, ln2);
    forall x: real
      ensures b.power(x) > 0.0 && b.logarithm(b.power(x)) == x
    {
      BaseTwoIs(e, ln2, x);
      BaseTwoIs(e, ln2, e.power(Times(x, ln2)));
      LawsAt(e, Times(x, ln2), 0.0);
      Undo(x, ln2);
    }
    forall x: real, y: real
      ensures b.power(x + y) == b.power(x) * b.power(y)
    {
      BaseTwoIs(e, ln2, x);
      BaseTwoIs(e, ln2, y);
      BaseTwoIs(e, ln2, x + y);
      PowerOfSum(e, x, y, ln2);
    }
    forall y: real | y > 0.0
      ensures b.power(b.logarithm(y)) == y
    {
      BaseTwoIs(e, ln2, y);
      BaseTwoIs(e, ln2, Over(e.logarithm(y), ln2));
      LawsAt(e, 0.0, y);
      Redo(e.logarithm(y), ln2);
    }
    FromLaws(b);
  }

  lemma Undo(x: real, a: real)
    requires a != 0.0
    ensures Over(Times(x, a), a) == x
  {
  }

  lemma Redo(x: real, a: real)
    requires a != 0.0
    ensures Times(Over(x, a), a) == x
  {
  }

  lemma PowerOfSum(e: Exponential, x: real, y: real, ln2: real)
    requires e.Lawful()
    ensures e.power(Times(x + y, ln2)) == e.power(Times(x, ln2)) * e.power(Times(y, ln2))
  {
    hide Exponential.Lawful;
    var a, b := Times(x, ln2), Times(y, ln2);
    assert Times(x + y, ln2) == a + b;
    LawsAt(e, a, b);
  }

  /** The same candidates with their logits in base-two units. */
  function InBaseTwo(cands: seq<Candidate>, ln2: real): (c: seq<Candidate>)
    requires ln2 != 0.0
    ensures |c| == |cands|
  {
    seq(|cands|, k requires 0 <= k < |cands| =>
      if cands[k].Active? then Active(Over(cands[k].logit, ln2), cands[k].value) else Inactive)
  }

  lemma {:induction false} SameSums(e: Exponential, cands: seq<Candidate>, ln2: real, d: nat)
    requires e.Lawful() && ln2 != 0.0 && BaseTwo(e, ln2).Lawful()
    ensures ExpSum(BaseTwo(e, ln2), InBaseTwo(cands, ln2), 0.0) == ExpSum(e, cands, 0.0)
    ensures WeightedSum(BaseTwo(e, ln2), InBaseTwo(cands, ln2), 0.0, d) == WeightedSum(e, cands, 0.0, d)
  {
    hide Exponential.Lawful, Weight, ValueAt;
    if cands != [] {
      var front, last := cands[..|cands| - 1], |cands| - 1;
      SameSums(e, front, ln2, d);
      assert InBaseTwo(cands, ln2)[..last] == InBaseTwo(front, ln2);
      SameWeight(e, cands[last], ln2, d);
    }
  }

  lemma SameWeight(e: Exponential, c: Candidate, ln2: real, d: nat)
    requires e.Lawful() && ln2 != 0.0 && BaseTwo(e, ln2).Lawful()
    ensures
      var c2 := if c.Active? then Active(Over(c.logit, ln2), c.value) else Inactive;
      Weight(BaseTwo(e, ln2), c2, 0.0) == Weight(e, c, 0.0) && ValueAt(c2, d) == ValueAt(c, d)
  {
    hide Exponential.Lawful, Times, Over;
    if c.Active? {
      Redo(c.logit, ln2);
        BaseTwoIs(e, ln2, Over(c.logit, ln2) - 0.0);
      assert Over(c.logit, ln2) - 0.0 == Over(c.logit, ln2) && c.logit - 0.0 == c.logit;
    }
  }

  /** The base-two merge yields the same output, and its log-sum-exp times ln 2 is the natural one. */
  lemma BaseTwoAgrees(e: Exponential, cands: seq<Candidate>, ln2: real, dims: nat)
    requires e.Lawful() && ln2 != 0.0
    ensures BaseTwo(e, ln2).Lawful()
    ensures
      var natural, binary := OneShot(e, cands, dims), OneShot(BaseTwo(e, ln2), InBaseTwo(cands, ln2), dims);
      && binary.output == natural.output && (binary.lse.Finite? <==> natural.lse.Finite?)
      && (natural.lse.Finite? ==> Times(binary.lse.value, ln2) == natural.lse.value)
  {
    hide Exponential.Lawful, ExpSum, WeightedSum, HasActive, Times, Over;
    BaseTwoLawful(e, ln2);
    SameActive(cands, ln2);
    forall d: nat
      ensures WeightedSum(BaseTwo(e, ln2), InBaseTwo(cands, ln2), 0.0, d) == WeightedSum(e, cands, 0.0, d)
    {
      SameSums(e, cands, ln2, d);
    }
    SameSums(e, cands, ln2, 0);
    Redo(e.Log(ExpSum(e, cands, 0.0)), ln2);
  }

  lemma SameActive(cands: seq<Candidate>, ln2: real)
    requires ln2 != 0.0
    ensures HasActive(InBaseTwo(cands, ln2)) <==> HasActive(cands)
  {
    if k :| 0 <= k < |cands| && cands[k].Active? {
      assert InBaseTwo(cands, ln2)[k].Active?;
    }
  }
}
