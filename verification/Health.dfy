/**
 The size check of a new catalogue, and the bound it puts on a whole epoch.  Models core/health.py, with
 ratios as exact fractions.
 */
module Health {
  import opened Common

  /** num / den. */
  datatype Ratio = Ratio(num: nat, den: nat)

  predicate Proper(r: Ratio) {
    0 < r.den && r.num <= r.den
  }

  predicate AtMost(r: Ratio, q: Ratio) {
    r.num * q.den <= q.num * r.den
  }

  /** The configurations the runner accepts: 0 <= failure <= warning <= 1. */
  datatype RunnerConfig = RunnerConfig(zeroIsFailure: bool, warning: Ratio, failure: Ratio)

  predicate Accepted(c: RunnerConfig) {
    Proper(c.warning) && Proper(c.failure) && AtMost(c.failure, c.warning)
  }

  datatype HealthError = UnexpectedZero | CatalogueCollapse

  /** `current / previous < r`. */
  predicate Below(current: nat, previous: nat, r: Ratio) {
    current * r.den < previous * r.num
  }

  /** Ok carries whether the shrink warning was raised. */
  function AssessCatalogue(current: nat, previous: Option<nat>, zeroIsFailure: bool, warning: Ratio, failure: Ratio)
    : Result<bool, HealthError>
  {
    if current == 0 && zeroIsFailure then Err(UnexpectedZero)
    else if previous == None || previous.value == 0 then Ok(false)
    else if Below(current, previous.value, failure) then Err(CatalogueCollapse)
    else Ok(Below(current, previous.value, warning))
  }

  /** The three answers, in the source's own numbers: an empty catalogue fails when zero is a failure, and
      otherwise one that has a predecessor fails below the failure ratio of it and is warned about below the
      warning ratio. */
  lemma AssessmentIsExact(current: nat, previous: Option<nat>, zeroIsFailure: bool, warning: Ratio, failure: Ratio)
    ensures var answer := AssessCatalogue(current, previous, zeroIsFailure, warning, failure);
            var zero := current == 0 && zeroIsFailure;
            var collapse := previous.Some? && previous.value > 0 && current * failure.den < previous.value * failure.num;
            var shrink := previous.Some? && previous.value > 0 && current * warning.den < previous.value * warning.num;
            && (answer == Err(UnexpectedZero) <==> zero)
            && (answer == Err(CatalogueCollapse) <==> !zero && collapse)
            && (answer == Ok(true) <==> !zero && !collapse && shrink)
            && (answer == Ok(false) <==> !zero && !collapse && !shrink)
  {
  }

  lemma Cancel(a: nat, b: nat, c: nat)
    requires 0 < c && a * c < b * c
    ensures a < b
  {
  }

  lemma Swap(x: nat, y: nat, z: nat)
    ensures (x * y) * z == (x * z) * y
  {
  }

  lemma Turn(x: nat, y: nat, z: nat)
    ensures (x * y) * z == (y * z) * x
  {
  }

  /** a / b < num / den <= wide / base. */
  lemma BelowTheWider(a: nat, b: nat, num: nat, den: nat, wide: nat, base: nat)
    requires a * den < b * num && num * base <= wide * den && 0 < den && 0 < base
    ensures a * base < b * wide
  {
    MulLess(a * den, b * num, base);
    MulLeq(num * base, wide * den, b);
    Swap(a, den, base);
    Turn(b, num, base);
    Turn(b, wide, den);
    Cancel(a * base, b * wide, den);
  }

  /** Under a configuration the runner accepts, what fails would have been warned about. */
  lemma FailureIsBelowWarning(current: nat, previous: nat, c: RunnerConfig)
    requires Accepted(c) && Below(current, previous, c.failure)
    ensures Below(current, previous, c.warning)
  {
    BelowTheWider(current, previous, c.failure.num, c.failure.den, c.warning.num, c.warning.den);
  }

  lemma MulLess(a: nat, b: nat, c: nat)
    requires a < b && 0 < c
    ensures a * c < b * c
  {
  }

  /** A catalogue that did not shrink is healthy and draws no warning, and a failing one is one that would
      have been warned about: under an accepted configuration the three answers lie in this order. */
  lemma AssessmentIsOrdered(current: nat, previous: nat, zeroIsFailure: bool, c: RunnerConfig)
    requires Accepted(c)
    ensures previous <= current && 0 < current ==>
              AssessCatalogue(current, Some(previous), zeroIsFailure, c.warning, c.failure) == Ok(false)
    ensures AssessCatalogue(current, Some(previous), zeroIsFailure, c.warning, c.failure) == Err(CatalogueCollapse) ==>
              Below(current, previous, c.warning)
  {
    if Below(current, previous, c.failure) { FailureIsBelowWarning(current, previous, c); }
    if previous <= current && 0 < current {
      GrowthIsNotBelow(current, previous, c.warning);
      GrowthIsNotBelow(current, previous, c.failure);
    }
  }

  lemma GrowthIsNotBelow(current: nat, previous: nat, r: Ratio)
    requires Proper(r) && previous <= current
    ensures !Below(current, previous, r)
  {
    MulLeq(previous, current, r.den);
    MulLeq(r.num, r.den, previous);
  }

  function Pow(b: nat, e: nat): nat {
    if e == 0 then 1 else b * Pow(b, e - 1)
  }

  /** Neighbouring counts never shrink below the failure ratio. */
  ghost predicate ShrinksSlowly(counts: seq<nat>, failure: Ratio) {
    forall k :: 0 < k < |counts| ==> !Below(counts[k], counts[k - 1], failure)
  }

  lemma AcceptedStep(current: nat, previous: Option<nat>, zeroIsFailure: bool, warning: Ratio, failure: Ratio)
    requires previous.Some? && AssessCatalogue(current, previous, zeroIsFailure, warning, failure).Ok?
    ensures !Below(current, previous.value, failure)
  {
    if previous.value == 0 {
      assert 0 * failure.num == 0;
    }
  }

  lemma MulLeq(a: nat, b: nat, c: nat)
    requires a <= b
    ensures a * c <= b * c
  {
  }

  lemma ShrinkStep(first: nat, before: nat, after: nat, p: nat, q: nat, num: nat, den: nat)
    requires first * p <= before * q && before * num <= after * den
    ensures first * (num * p) <= after * (den * q)
  {
    calc {
      first * (num * p);
    ==
      (first * p) * num;
    <= { MulLeq(first * p, before * q, num); }
      (before * q) * num;
    ==
      (before * num) * q;
    <= { MulLeq(before * num, after * den, q); }
      (after * den) * q;
    ==
      after * (den * q);
    }
  }

  /** counts[0] * num^k <= counts[k] * den^k: what slow shrinking adds up to. */
  lemma {:induction false} ShrinkIsBounded(counts: seq<nat>, failure: Ratio, k: nat)
    requires ShrinksSlowly(counts, failure) && k < |counts|
    ensures counts[0] * Pow(failure.num, k) <= counts[k] * Pow(failure.den, k)
  {
    if k > 0 {
      ShrinkIsBounded(counts, failure, k - 1);
      assert !Below(counts[k], counts[k - 1], failure);
      ShrinkStep(counts[0], counts[k - 1], counts[k], Pow(failure.num, k - 1), Pow(failure.den, k - 1), failure.num, failure.den);
    }
  }
}
