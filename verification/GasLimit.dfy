/** The gas limit of the next block, moving towards a desired limit in bounded steps on uint64. */
module GasLimit {
  import opened Prelude

  const GAS_LIMIT_BOUND_DIVISOR: nat := 1024
  const MIN_GAS_LIMIT: nat := 5000
  const MAX_GAS_LIMIT: nat := 0x7FFF_FFFF_FFFF_FFFF

  function Target(desired: nat): nat {
    Max(desired, MIN_GAS_LIMIT)
  }

  /** The step of the limit, with uint64 wrap-around. */
  function CalcGasLimit(parent: nat, desired: nat): nat
    requires parent <= MAX_UINT64 && desired <= MAX_UINT64
  {
    var delta := Wrap64(parent / GAS_LIMIT_BOUND_DIVISOR + MAX_UINT64);
    var target := if desired < MIN_GAS_LIMIT then MIN_GAS_LIMIT else desired;
    if parent < target then
      var limit := Wrap64(parent + delta);
      if limit > target then target else limit
    else if parent > target then
      var limit := Wrap64(parent + TWO_64 - delta);
      if limit < target then target else limit
    else
      parent
  }

  /** The largest step the protocol allows from `parent`, plus one. */
  function Bound(parent: nat): nat {
    parent / GAS_LIMIT_BOUND_DIVISOR
  }

  /** No wrap-around: the parent is at its target or above, or the largest step up fits uint64. */
  predicate FitsStep(parent: nat, desired: nat) {
    parent >= Target(desired) || parent + Bound(parent) - 1 <= MAX_UINT64
  }

  /** `next` lies between the parent and the target, strictly within the bound of the parent. */
  predicate Honest(parent: nat, desired: nat, next: nat) {
    && next < parent + Bound(parent)
    && next + Bound(parent) > parent
    && (parent <= Target(desired) ==> parent <= next <= Target(desired))
    && (parent >= Target(desired) ==> Target(desired) <= next <= parent)
  }

  lemma WrapDown(parent: nat)
    requires MIN_GAS_LIMIT <= parent <= MAX_UINT64
    ensures Wrap64(Bound(parent) + MAX_UINT64) == Bound(parent) - 1 >= 3
    ensures Wrap64(parent + TWO_64 - (Bound(parent) - 1)) == parent - (Bound(parent) - 1)
  {
  }

  /** From any parent at or above the minimum, a step is honest exactly when it does not wrap: it moves
      towards the target without overshoot, strictly inside the bound, and by at least three if the
      target is that far. */
  lemma StepHonestIff(parent: nat, desired: nat)
    requires MIN_GAS_LIMIT <= parent <= MAX_UINT64 && desired <= MAX_UINT64
    ensures Honest(parent, desired, CalcGasLimit(parent, desired)) <==> FitsStep(parent, desired)
    ensures FitsStep(parent, desired) ==>
              var next := CalcGasLimit(parent, desired);
              || next == Target(desired)
              || (parent < Target(desired) && next >= parent + 3)
              || (parent > Target(desired) && next + 3 <= parent)
  {
    WrapDown(parent);
  }

  /** The step is the best one: no honest limit is closer to the target. */
  lemma StepIsBest(parent: nat, desired: nat, other: nat)
    requires MIN_GAS_LIMIT <= parent <= MAX_UINT64 && desired <= MAX_UINT64
    requires FitsStep(parent, desired) && Honest(parent, desired, other)
    ensures var next := CalcGasLimit(parent, desired);
            if parent <= Target(desired) then other <= next <= Target(desired) else Target(desired) <= next <= other
  {
    WrapDown(parent);
  }

  /** The largest desired limit towards which no step ever wraps. */
  const LAST_SAFE_LIMIT: nat := 0xFFC0_0FFC_00FF_C011

  /** No step from any parent wraps exactly when the desired limit is at most that; every valid block gas
      limit is. */
  lemma SafeLimitIff(desired: nat)
    requires desired <= MAX_UINT64
    ensures (forall parent: nat | MIN_GAS_LIMIT <= parent <= MAX_UINT64 :: FitsStep(parent, desired))
            <==> desired <= LAST_SAFE_LIMIT
    ensures MAX_GAS_LIMIT <= LAST_SAFE_LIMIT
  {
    if desired > LAST_SAFE_LIMIT {
      assert !FitsStep(desired - 1, desired);
    }
  }

  /** The wrap-around is real: near the top of uint64 a step up lands far below. */
  lemma StepCanWrap()
    ensures CalcGasLimit(MAX_UINT64 - 1, MAX_UINT64) == 0x3F_FFFF_FFFF_FFFC
  {
  }

  function Iterate(parent: nat, desired: nat, steps: nat): nat
    requires parent <= MAX_UINT64 && desired <= MAX_UINT64
    decreases steps
  {
    if steps == 0 then parent else CalcGasLimit(Iterate(parent, desired, steps - 1), desired)
  }

  function Distance(a: nat, b: nat): nat {
    if a <= b then b - a else a - b
  }

  /** Step `k` of the iteration does not wrap. */
  predicate FitsAt(parent: nat, desired: nat, k: nat)
    requires parent <= MAX_UINT64 && desired <= MAX_UINT64
  {
    FitsStep(Iterate(parent, desired, k), desired)
  }

  /** None of the first `steps` steps wraps. */
  predicate Fits(parent: nat, desired: nat, steps: nat)
    requires parent <= MAX_UINT64 && desired <= MAX_UINT64
  {
    forall k: nat | k < steps :: FitsAt(parent, desired, k)
  }

  /** Iterating the step approaches the target by at least three per step until it is reached, and then
      stays there, as long as no step wraps. */
  lemma {:induction false} Converges(parent: nat, desired: nat, steps: nat)
    requires MIN_GAS_LIMIT <= parent <= MAX_UINT64 && desired <= MAX_UINT64
    ensures var limit := Iterate(parent, desired, steps);
            Fits(parent, desired, steps) ==>
            && MIN_GAS_LIMIT <= limit <= MAX_UINT64
            && (parent >= Target(desired) ==> limit >= Target(desired))
            && (limit == Target(desired) || Distance(limit, Target(desired)) + 3 * steps <= Distance(parent, Target(desired)))
            && (3 * steps >= Distance(parent, Target(desired)) ==> limit == Target(desired))
  {
    if steps == 0 {
    } else if Fits(parent, desired, steps) {
      assert Fits(parent, desired, steps - 1);
      Converges(parent, desired, steps - 1);
      assert FitsAt(parent, desired, steps - 1);
      StepHonestIff(Iterate(parent, desired, steps - 1), desired);
    }
  }

  /** No step wraps towards a safe limit, nor on the way down. */
  lemma {:induction false} FitsWhen(parent: nat, desired: nat, steps: nat)
    requires MIN_GAS_LIMIT <= parent <= MAX_UINT64 && desired <= MAX_UINT64
    requires desired <= LAST_SAFE_LIMIT || parent >= Target(desired)
    ensures Fits(parent, desired, steps)
  {
    if steps == 0 {
    } else {
      FitsWhen(parent, desired, steps - 1);
      Converges(parent, desired, steps - 1);
      if desired <= LAST_SAFE_LIMIT {
        SafeLimitIff(desired);
      }
    }
  }

  /** Step `k` of the iteration is honest. */
  predicate HonestAt(parent: nat, desired: nat, k: nat)
    requires parent <= MAX_UINT64 && desired <= MAX_UINT64
  {
    Honest(Iterate(parent, desired, k), desired, Iterate(parent, desired, k + 1))
  }

  lemma HonestAtIff(parent: nat, desired: nat, k: nat)
    requires parent <= MAX_UINT64 && desired <= MAX_UINT64 && MIN_GAS_LIMIT <= Iterate(parent, desired, k) <= MAX_UINT64
    ensures HonestAt(parent, desired, k) <==> FitsAt(parent, desired, k)
  {
    StepHonestIff(Iterate(parent, desired, k), desired);
  }

  /** The condition is exact: all of the first `steps` steps are honest if and only if none of them wraps. */
  lemma {:induction false} HonestIffFits(parent: nat, desired: nat, steps: nat)
    requires MIN_GAS_LIMIT <= parent <= MAX_UINT64 && desired <= MAX_UINT64
    ensures (forall k: nat | k < steps :: HonestAt(parent, desired, k)) <==> Fits(parent, desired, steps)
  {
    if steps == 0 {
    } else {
      HonestIffFits(parent, desired, steps - 1);
      assert Fits(parent, desired, steps) <==> Fits(parent, desired, steps - 1) && FitsAt(parent, desired, steps - 1);
      if Fits(parent, desired, steps - 1) {
        Converges(parent, desired, steps - 1);
        HonestAtIff(parent, desired, steps - 1);
      }
    }
  }

  lemma StuckStep(limit: nat, desired: nat)
    requires 1024 <= limit < 2048 && desired <= MAX_UINT64
    ensures CalcGasLimit(limit, desired) == limit
  {
    assert limit / GAS_LIMIT_BOUND_DIVISOR == 1;
  }

  /** A limit between 1024 and 2047 never moves again: its step is zero. */
  lemma {:induction false} StuckBelowMinimum(limit: nat, desired: nat, steps: nat)
    requires 1024 <= limit < 2048 && desired <= MAX_UINT64
    ensures Iterate(limit, desired, steps) == limit
  {
    if steps == 0 {
    } else {
      StuckBelowMinimum(limit, desired, steps - 1);
      StuckStep(limit, desired);
    }
  }

  lemma {:induction false} IterateFrom(parent: nat, desired: nat, steps: nat)
    requires parent <= MAX_UINT64 && desired <= MAX_UINT64 && steps > 0
    requires CalcGasLimit(parent, desired) <= MAX_UINT64
    ensures Iterate(parent, desired, steps) == Iterate(CalcGasLimit(parent, desired), desired, steps - 1)
  {
    if steps == 1 {
      assert Iterate(parent, desired, 1) == CalcGasLimit(Iterate(parent, desired, 0), desired);
    } else {
      IterateFrom(parent, desired, steps - 1);
    }
  }

  /** Without the condition the limit can fall below the minimum and stay there for ever: from this parent,
      steps towards the largest limit lead to 1024. */
  lemma {:induction false} NeverConverges(steps: nat)
    requires steps > 0
    ensures Iterate(0xFFC0_0FFC_00FF_C410, MAX_UINT64, steps) == 1024 < MIN_GAS_LIMIT
  {
    assert CalcGasLimit(0xFFC0_0FFC_00FF_C410, MAX_UINT64) == 1024;
    IterateFrom(0xFFC0_0FFC_00FF_C410, MAX_UINT64, steps);
    StuckBelowMinimum(1024, MAX_UINT64, steps - 1);
  }
}
