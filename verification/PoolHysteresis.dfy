/**
When the connection pool grows and shrinks. Thresholds and factors are exact rationals here; `as usize`
is the floor.
*/
module PoolHysteresis {
  import opened Prelude

  const SHRINK_FACTOR: real := 0.8

  datatype Strategy = Strategy(factors: seq<real>, index: nat, expandAt: real, shrinkAt: real)

  const DEFAULT_STRATEGY: Strategy := Strategy([2.0, 1.5, 1.2, 1.1], 0, 0.8, 0.3)

  /** Factors never shrink the pool; thresholds are fractions. */
  ghost predicate Sane(s: Strategy) {
    && s.factors != []
    && (forall i :: 0 <= i < |s.factors| ==> s.factors[i] >= 1.0)
  }

  function CurrentFactor(s: Strategy): real
    requires s.factors != []
  {
    s.factors[if s.index < |s.factors| then s.index else |s.factors| - 1]
  }

  function Advance(s: Strategy): Strategy {
    if s.index + 1 < |s.factors| then s.(index := s.index + 1) else s
  }

  function Utilization(total: nat, available: nat): real
    requires available <= total
  {
    if total == 0 then 0.0 else (total - available) as real / total as real
  }

  /** A size multiplied by a factor, rounded down. */
  function Scaled(size: nat, factor: real): (scaled: nat)
    requires factor >= 0.0
    ensures scaled as real <= size as real * factor < scaled as real + 1.0
  {
    NonNegativeProduct(size as real, factor);
    (size as real * factor).Floor
  }

  lemma NonNegativeProduct(a: real, b: real)
    requires a >= 0.0 && b >= 0.0
    ensures a * b >= 0.0
  {
  }

  datatype Expansion = NotNeeded | TooLarge(size: nat) | GrowTo(size: nat)

  function Expand(total: nat, available: nat, maxSize: nat, s: Strategy): Expansion
    requires available <= total && s.factors != [] && CurrentFactor(s) >= 0.0
  {
    if Utilization(total, available) < s.expandAt then NotNeeded
    else
      var size := Scaled(total, CurrentFactor(s));
      if size > maxSize then TooLarge(size) else GrowTo(size)
  }

  /** How many connections a shrink removes, or None if it refuses. */
  function Shrink(total: nat, available: nat, minSize: nat, s: Strategy): Option<nat>
    requires available <= total
  {
    if Utilization(total, available) > s.shrinkAt || total <= minSize then None
    else
      var scaled := Scaled(total, SHRINK_FACTOR);
      var size := if scaled > minSize then scaled else minSize;
      if size >= total then None
      else Some(if total - size < available then total - size else available)
  }

  // ---------- comparisons without division ----------

  lemma PositiveProduct(a: real, b: real)
    requires a > 0.0 && b > 0.0
    ensures a * b > 0.0
  {
  }

  lemma MultiplyOrdered(a: real, b: real, c: real)
    requires a <= b && c >= 0.0
    ensures a * c <= b * c
  {
    NonNegativeProduct(b - a, c);
    assert (b - a) * c == b * c - a * c;
  }

  lemma MultiplyStrictly(a: real, b: real, c: real)
    requires a < b && c > 0.0
    ensures a * c < b * c
  {
    PositiveProduct(b - a, c);
    assert (b - a) * c == b * c - a * c;
  }

  lemma CompareProducts(u: real, threshold: real, t: real)
    requires t > 0.0
    ensures u >= threshold <==> u * t >= threshold * t
    ensures u > threshold <==> u * t > threshold * t
  {
    if u > threshold {
      MultiplyStrictly(threshold, u, t);
    } else if u < threshold {
      MultiplyStrictly(u, threshold, t);
    }
  }

  lemma AtLeastThreshold(total: nat, available: nat, threshold: real)
    requires available <= total && total > 0
    ensures Utilization(total, available) >= threshold <==> (total - available) as real >= threshold * total as real
    ensures Utilization(total, available) > threshold <==> (total - available) as real > threshold * total as real
  {
    var u, t := Utilization(total, available), total as real;
    assert u * t == (total - available) as real;
    CompareProducts(u, threshold, t);
  }

  // ---------- the decisions ----------

  /** What an expansion decides, without division: used connections against the threshold, and the floor. */
  lemma ExpandsExactlyWhen(total: nat, available: nat, maxSize: nat, s: Strategy)
    requires available <= total && Sane(s)
    ensures var used, t := (total - available) as real, total as real;
      var factor := if s.index < |s.factors| then s.factors[s.index] else s.factors[|s.factors| - 1];
      match Expand(total, available, maxSize, s)
      case NotNeeded => if total == 0 then s.expandAt > 0.0 else used < s.expandAt * t
      case GrowTo(size) =>
        && (if total == 0 then s.expandAt <= 0.0 else used >= s.expandAt * t)
        && total <= size <= maxSize && size as real <= t * factor < size as real + 1.0
      case TooLarge(size) =>
        && (if total == 0 then s.expandAt <= 0.0 else used >= s.expandAt * t)
        && size > maxSize && size as real <= t * factor < size as real + 1.0
  {
    if total > 0 {
      AtLeastThreshold(total, available, s.expandAt);
      hide Utilization, Scaled;
      GrownIsLarger(total, CurrentFactor(s));
    } else {
      assert Utilization(total, available) == 0.0;
      hide Utilization, Scaled;
      GrownIsLarger(total, CurrentFactor(s));
    }
  }

  lemma GrownIsLarger(size: nat, factor: real)
    requires factor >= 1.0
    ensures Scaled(size, factor) >= size
  {
    MultiplyOrdered(1.0, factor, size as real);
  }

  /** What a shrink decides: four fifths, but not below the minimum, and only as far as there are idle connections. */
  lemma ShrinksExactlyWhen(total: nat, available: nat, minSize: nat, s: Strategy)
    requires available <= total && s.shrinkAt >= 0.0
    ensures Shrink(total, available, minSize, s) == None <==>
            total <= minSize || (total - available) as real > s.shrinkAt * total as real
    ensures Shrink(total, available, minSize, s).Some? ==>
              var removed := Shrink(total, available, minSize, s).value;
              exists goal: nat :: minSize <= goal < total
                && (if goal > minSize then 5 * goal <= 4 * total < 5 * goal + 5 else 4 * total < 5 * goal + 5)
                && removed == if total - goal < available then total - goal else available
  {
    if total > minSize {
      hide Shrink;
      AtLeastThreshold(total, available, s.shrinkAt);
      hide Utilization, Scaled;
      if Utilization(total, available) > s.shrinkAt {
        ShrinkRefuses(total, available, minSize, s);
      } else {
        var goal := ShrinkGoal(total, available, minSize, s);
      }
    }
  }

  lemma ShrinkRefuses(total: nat, available: nat, minSize: nat, s: Strategy)
    requires available <= total && Utilization(total, available) > s.shrinkAt
    ensures Shrink(total, available, minSize, s) == None
  {
  }

  lemma ShrinkGoal(total: nat, available: nat, minSize: nat, s: Strategy) returns (goal: nat)
    requires available <= total && total > minSize && Utilization(total, available) <= s.shrinkAt
    ensures minSize <= goal < total
    ensures if goal > minSize then 5 * goal <= 4 * total < 5 * goal + 5 else 4 * total < 5 * goal + 5
    ensures Shrink(total, available, minSize, s) == Some(if total - goal < available then total - goal else available)
  {
    hide Utilization, Scaled;
    var scaled := Scaled(total, SHRINK_FACTOR);
    FourFifths(total, scaled);
    goal := if scaled > minSize then scaled else minSize;
  }

  lemma FourFifths(total: nat, scaled: nat)
    requires scaled as real <= total as real * SHRINK_FACTOR < scaled as real + 1.0
    ensures 5 * scaled <= 4 * total < 5 * scaled + 5
  {
    assert (5 * scaled) as real <= (4 * total) as real < (5 * scaled + 5) as real;
  }

  function AfterExpansions(s: Strategy, n: nat): Strategy {
    if n == 0 then s else Advance(AfterExpansions(s, n - 1))
  }

  /** The factors are used one after the other, and the last one for good; nothing else about the strategy changes. */
  lemma {:induction false} FactorsInTurn(s: Strategy, n: nat)
    requires s.factors != [] && s.index < |s.factors|
    ensures var index := if s.index + n < |s.factors| then s.index + n else |s.factors| - 1;
      AfterExpansions(s, n) == s.(index := index) && CurrentFactor(AfterExpansions(s, n)) == s.factors[index]
  {
    if n > 0 {
      FactorsInTurn(s, n - 1);
    }
  }

  /** Growing by `f` a pool used at rate `e` leaves it used above rate `h`. */
  lemma StaysAbove(used: real, t: real, size: real, f: real, e: real, h: real)
    requires t > 0.0 && used >= e * t && size <= t * f && h > 0.0 && h * f < e
    ensures used > h * size
  {
    MultiplyOrdered(size, t * f, h);
    MultiplyStrictly(h * f, e, t);
    assert (t * f) * h == (h * f) * t;
  }

  /** Shrinking by a fifth, rounded down, a pool used at rate `h` leaves it used below rate `e`. */
  lemma StaysBelow(used: real, t: real, left: real, e: real, h: real)
    requires used >= 1.0 && used <= h * t && left > SHRINK_FACTOR * t - 1.0
    requires t > 0.0 && h > 0.0 && e > 0.0 && h + h * e < SHRINK_FACTOR * e
    ensures used < e * left
  {
    var k := h * t;
    MultiplyStrictly(SHRINK_FACTOR * t - 1.0, left, e);
    DistributeOverE(t, e);
    AtLeastOnce(k, e);
    MultiplyStrictly(h + h * e, SHRINK_FACTOR * e, t);
    DistributeOverT(h, e, t);
    assert (h * t) * e == k * e;
    AddUp(left * e, (SHRINK_FACTOR * e) * t, k * e, k, e, used);
  }

  lemma AtLeastOnce(k: real, e: real)
    requires k >= 1.0 && e > 0.0
    ensures k * e >= e
  {
    NonNegativeProduct(k - 1.0, e);
    assert (k - 1.0) * e == k * e - e;
  }

  lemma DistributeOverE(t: real, e: real)
    ensures (SHRINK_FACTOR * t - 1.0) * e == (SHRINK_FACTOR * e) * t - e
  {
  }

  lemma DistributeOverT(h: real, e: real, t: real)
    ensures (h + h * e) * t == h * t + (h * t) * e
  {
  }

  lemma AddUp(leftE: real, shrunkE: real, usedE: real, bound: real, e: real, used: real)
    requires leftE > shrunkE - e && shrunkE > bound + usedE && usedE >= e && used <= bound
    ensures used < leftE
  {
  }

  // ---------- no thrashing ----------

  /** An expansion by this strategy's current factor cannot fall to where it shrinks. */
  ghost predicate ExpansionStaysUp(s: Strategy)
    requires s.factors != []
  {
    s.shrinkAt * CurrentFactor(s) < s.expandAt
  }

  /** A shrink by one fifth cannot rise to where this strategy expands. */
  ghost predicate ShrinkStaysDown(s: Strategy) {
    s.shrinkAt + s.shrinkAt * s.expandAt < SHRINK_FACTOR * s.expandAt
  }

  /** What a threshold-triggered expansion says about the sizes. */
  lemma ExpansionMeans(total: nat, available: nat, maxSize: nat, s: Strategy)
    requires available <= total && Sane(s) && s.expandAt > 0.0
    requires Expand(total, available, maxSize, s).GrowTo?
    ensures var size := Expand(total, available, maxSize, s).size;
            && 0 < total <= size
            && (total - available) as real >= s.expandAt * total as real
            && size as real <= total as real * CurrentFactor(s)
  {
    assert total > 0;
    AtLeastThreshold(total, available, s.expandAt);
    MultiplyOrdered(1.0, CurrentFactor(s), total as real);
  }

  lemma ShrinkRefusesAbove(total: nat, available: nat, minSize: nat, s: Strategy)
    requires available <= total && total > 0
    requires (total - available) as real > s.shrinkAt * total as real
    ensures Shrink(total, available, minSize, s) == None
  {
    AtLeastThreshold(total, available, s.shrinkAt);
  }

  /** What a shrink that goes ahead says about the sizes. */
  lemma ShrinkMeans(total: nat, available: nat, minSize: nat, s: Strategy)
    requires available <= total && Shrink(total, available, minSize, s).Some?
    ensures var removed := Shrink(total, available, minSize, s).value;
            && total > 0 && removed <= available
            && (total - available) as real <= s.shrinkAt * total as real
            && (total - removed) as real > SHRINK_FACTOR * total as real - 1.0
            && total - removed >= minSize
  {
    AtLeastThreshold(total, available, s.shrinkAt);
  }

  lemma NoNeedBelow(total: nat, available: nat, maxSize: nat, s: Strategy)
    requires available <= total && Sane(s) && s.expandAt > 0.0
    requires total == available || (total - available) as real < s.expandAt * total as real
    ensures Expand(total, available, maxSize, s) == NotNeeded
  {
    if total > 0 {
      AtLeastThreshold(total, available, s.expandAt);
      PositiveProduct(s.expandAt, total as real);
    }
  }

  /** After an expansion triggered by its threshold, a shrink refuses: for every size, floors included. */
  lemma NoShrinkAfterExpansion(total: nat, available: nat, minSize: nat, maxSize: nat, s: Strategy)
    requires available <= total && Sane(s) && s.expandAt > 0.0 && s.shrinkAt > 0.0 && ExpansionStaysUp(s)
    requires Expand(total, available, maxSize, s).GrowTo?
    ensures var size := Expand(total, available, maxSize, s).size;
            size >= total && Shrink(size, size - (total - available), minSize, s) == None
  {
    hide Expand, Shrink, Utilization, Scaled;
    var size := Expand(total, available, maxSize, s).size;
    ExpansionMeans(total, available, maxSize, s);
    StaysAbove((total - available) as real, total as real, size as real, CurrentFactor(s), s.expandAt, s.shrinkAt);
    ShrinkRefusesAbove(size, size - (total - available), minSize, s);
  }

  /** No threshold-triggered expansion, of a pool of any size, leaves a pool that a shrink would reduce at once. */
  ghost predicate NeverShrinksAfterExpanding(s: Strategy)
    requires s.factors != [] && CurrentFactor(s) >= 0.0
  {
    forall total: nat, available: nat, minSize: nat, maxSize: nat
      | available <= total && Expand(total, available, maxSize, s).GrowTo? ::
      StaysGrown(total, available, minSize, maxSize, s)
  }

  ghost predicate StaysGrown(total: nat, available: nat, minSize: nat, maxSize: nat, s: Strategy)
    requires available <= total && s.factors != [] && CurrentFactor(s) >= 0.0
    requires Expand(total, available, maxSize, s).GrowTo?
  {
    var size := Expand(total, available, maxSize, s).size;
    size >= total && Shrink(size, size - (total - available), minSize, s) == None
  }

  /** Some pool is used at exactly the expansion threshold and grows by exactly the factor. */
  ghost predicate MeetsExactly(s: Strategy)
    requires s.factors != []
  {
    exists total: nat, used: nat, size: nat :: MeetsAt(s, total, used, size)
  }

  ghost predicate MeetsAt(s: Strategy, total: nat, used: nat, size: nat)
    requires s.factors != []
  {
    total > 0 && used as real == s.expandAt * total as real && size as real == total as real * CurrentFactor(s)
  }

  /** The pool that expands, and shrinks at once: used by `used` of `total` connections, grown to `size`. */
  lemma ShrinksAtOnce(total: nat, used: nat, size: nat, s: Strategy)
    requires Sane(s) && s.expandAt > 0.0
    requires 0 < total && used <= total && size == Scaled(total, CurrentFactor(s))
    requires used as real >= s.expandAt * total as real && used as real <= s.shrinkAt * size as real
    ensures !NeverShrinksAfterExpanding(s)
  {
    hide Utilization, Scaled;
    MultiplyOrdered(1.0, CurrentFactor(s), total as real);
    AtLeastThreshold(total, total - used, s.expandAt);
    assert Expand(total, total - used, size, s) == GrowTo(size);
    ShrinkGoesAhead(size, used, s);
    assert !StaysGrown(total, total - used, 0, size, s);
  }

  lemma ShrinkGoesAhead(size: nat, used: nat, s: Strategy)
    requires 0 < size && used <= size && used as real <= s.shrinkAt * size as real
    ensures Shrink(size, size - used, 0, s).Some?
  {
    hide Utilization;
    AtLeastThreshold(size, size - used, s.shrinkAt);
    MultiplyStrictly(SHRINK_FACTOR, 1.0, size as real);
  }

  function RoundedUp(x: real): (n: nat)
    requires x >= 0.0
    ensures x <= n as real < x + 1.0
  {
    if x.Floor as real == x then x.Floor else x.Floor + 1
  }

  /** Above the condition's bound, a large enough pool thrashes. */
  lemma ThrashesWhenLarge(s: Strategy)
    requires Sane(s) && 0.0 < s.expandAt <= 1.0 && s.shrinkAt > 0.0
    requires s.shrinkAt * CurrentFactor(s) > s.expandAt
    ensures !NeverShrinksAfterExpanding(s)
  {
    var h, d := s.shrinkAt, s.shrinkAt * CurrentFactor(s) - s.expandAt;
    var total := RoundedUp((1.0 + h) / d) + 1;
    LargeEnoughTotal(total as real, h, d);
    ThrashesAt(total, d, s);
  }

  lemma ThrashesAt(total: nat, d: real, s: Strategy)
    requires Sane(s) && 0.0 < s.expandAt <= 1.0 && s.shrinkAt > 0.0 && total > 0
    requires d == s.shrinkAt * CurrentFactor(s) - s.expandAt && d * total as real >= 1.0 + s.shrinkAt
    ensures !NeverShrinksAfterExpanding(s)
  {
    hide NeverShrinksAfterExpanding, Scaled;
    var used, size := UsedAtThreshold(total, s.expandAt), Scaled(total, CurrentFactor(s));
    GrownBeyond(total as real, used as real, size as real, CurrentFactor(s), s.expandAt, s.shrinkAt, d);
    ShrinksAtOnce(total, used, size, s);
  }

  /** The least use that reaches the threshold. */
  function UsedAtThreshold(total: nat, threshold: real): (used: nat)
    requires 0.0 < threshold <= 1.0
    ensures used <= total
    ensures threshold * total as real <= used as real < threshold * total as real + 1.0
  {
    NonNegativeProduct(threshold, total as real);
    MultiplyOrdered(threshold, 1.0, total as real);
    RoundedUpAtMost(threshold * total as real, total);
    RoundedUp(threshold * total as real)
  }

  lemma RoundedUpAtMost(x: real, bound: nat)
    requires 0.0 <= x <= bound as real
    ensures RoundedUp(x) <= bound
  {
  }

  lemma LargeEnoughTotal(t: real, h: real, d: real)
    requires d > 0.0 && t >= (1.0 + h) / d
    ensures d * t >= 1.0 + h
  {
    MultiplyOrdered((1.0 + h) / d, t, d);
    assert (1.0 + h) / d * d == 1.0 + h;
  }

  lemma GrownBeyond(t: real, used: real, size: real, f: real, e: real, h: real, d: real)
    requires h > 0.0 && used < e * t + 1.0 && size > t * f - 1.0
    requires d == h * f - e && d * t >= 1.0 + h
    ensures used <= h * size
  {
    MultiplyOrdered(t * f - 1.0, size, h);
    assert (t * f - 1.0) * h == (h * f) * t - h;
    assert d * t == (h * f) * t - e * t;
  }

  /** On the bound, only a pool that meets threshold and factor exactly can thrash. */
  lemma OnTheBound(total: nat, available: nat, minSize: nat, maxSize: nat, s: Strategy)
    requires available <= total && Sane(s) && s.expandAt > 0.0 && s.shrinkAt > 0.0
    requires s.shrinkAt * CurrentFactor(s) == s.expandAt
    requires Expand(total, available, maxSize, s).GrowTo? && !StaysGrown(total, available, minSize, maxSize, s)
    ensures MeetsExactly(s)
  {
    hide Expand, Shrink, Utilization, Scaled;
    var size := Expand(total, available, maxSize, s).size;
    ExpansionMeans(total, available, maxSize, s);
    if (total - available) as real > s.shrinkAt * size as real {
      ShrinkRefusesAbove(size, size - (total - available), minSize, s);
    }
    var e, h, f, t := s.expandAt, s.shrinkAt, CurrentFactor(s), total as real;
    assert (t * f) * h == (h * f) * t;
    if size as real < t * f {
      MultiplyStrictly(size as real, t * f, h);
    }
    MultiplyOrdered(size as real, t * f, h);
    assert MeetsAt(s, total, total - available, size);
  }

  /**
  Exactly when expansions are not undone at once, for pools of every size: the shrink threshold times the
  factor is below the expansion threshold, or equals it and no pool meets threshold and factor exactly.
  */
  lemma NeverShrinksAfterExpandingExactlyWhen(s: Strategy)
    requires Sane(s) && 0.0 < s.expandAt <= 1.0 && s.shrinkAt > 0.0
    ensures NeverShrinksAfterExpanding(s) <==>
            || s.shrinkAt * CurrentFactor(s) < s.expandAt
            || (s.shrinkAt * CurrentFactor(s) == s.expandAt && !MeetsExactly(s))
  {
    hide Expand, Shrink, Utilization, Scaled;
    if s.shrinkAt * CurrentFactor(s) > s.expandAt {
      ThrashesWhenLarge(s);
    } else if s.shrinkAt * CurrentFactor(s) == s.expandAt && MeetsExactly(s) {
      ThrashesOnTheBound(s);
    } else {
      forall total: nat, available: nat, minSize: nat, maxSize: nat
        | available <= total && Expand(total, available, maxSize, s).GrowTo?
        ensures StaysGrown(total, available, minSize, maxSize, s)
      {
        if ExpansionStaysUp(s) {
          NoShrinkAfterExpansion(total, available, minSize, maxSize, s);
        } else if !StaysGrown(total, available, minSize, maxSize, s) {
          OnTheBound(total, available, minSize, maxSize, s);
        }
      }
    }
  }

  // Thresholds and factors that a program can write down are fractions.

  ghost predicate IsFraction(x: real, p: nat, q: nat) {
    q > 0 && x * q as real == p as real
  }

  ghost predicate Rational(x: real) {
    exists p: nat, q: nat :: IsFraction(x, p, q)
  }

  /** Some pool is used at exactly a rational threshold and grows by exactly a rational factor. */
  lemma RationalMeetsExactly(s: Strategy)
    requires s.factors != [] && Rational(s.expandAt) && Rational(CurrentFactor(s))
    ensures MeetsExactly(s)
  {
    var p: nat, q: nat :| IsFraction(s.expandAt, p, q);
    var a: nat, b: nat :| IsFraction(CurrentFactor(s), a, b);
    MultiplyThrough(s.expandAt, p, q, b);
    MultiplyThrough(CurrentFactor(s), a, b, q);
    assert MeetsAt(s, q * b, p * b, a * q);
  }

  lemma MultiplyThrough(x: real, p: nat, q: nat, n: nat)
    requires x * q as real == p as real
    ensures 0 <= p * n && 0 <= q * n && (q > 0 && n > 0 ==> q * n > 0)
    ensures x * (q * n) as real == (p * n) as real && x * (n * q) as real == (p * n) as real
  {
    assert n * q == q * n;
    assert (q * n) as real == q as real * n as real && (p * n) as real == p as real * n as real;
    assert x * (q as real * n as real) == (x * q as real) * n as real;
  }

  /** For rational thresholds and factors, as all floating-point ones are, the strict inequality is exact. */
  lemma NeverShrinksAfterExpandingExactlyWhenBelow(s: Strategy)
    requires Sane(s) && 0.0 < s.expandAt <= 1.0 && s.shrinkAt > 0.0
    requires Rational(s.expandAt) && Rational(CurrentFactor(s))
    ensures NeverShrinksAfterExpanding(s) <==> s.shrinkAt * CurrentFactor(s) < s.expandAt
  {
    RationalMeetsExactly(s);
    NeverShrinksAfterExpandingExactlyWhen(s);
  }

  lemma ThrashesOnTheBound(s: Strategy)
    requires Sane(s) && 0.0 < s.expandAt <= 1.0 && s.shrinkAt > 0.0
    requires s.shrinkAt * CurrentFactor(s) == s.expandAt && MeetsExactly(s)
    ensures !NeverShrinksAfterExpanding(s)
  {
    var total: nat, used: nat, size: nat :| MeetsAt(s, total, used, size);
    MultiplyOrdered(s.expandAt, 1.0, total as real);
    assert (total as real * CurrentFactor(s)) * s.shrinkAt == (s.shrinkAt * CurrentFactor(s)) * total as real;
    ShrinksAtOnce(total, used, size, s);
  }

  /** After a shrink, an expansion is not needed: for every size, floors included. */
  lemma NoExpansionAfterShrink(total: nat, available: nat, minSize: nat, maxSize: nat, s: Strategy)
    requires available <= total && Sane(s) && s.expandAt > 0.0 && s.shrinkAt > 0.0 && ShrinkStaysDown(s)
    requires Shrink(total, available, minSize, s).Some?
    ensures var removed := Shrink(total, available, minSize, s).value;
            && removed <= available
            && Expand(total - removed, available - removed, maxSize, s) == NotNeeded
  {
    hide Expand, Shrink, Utilization, Scaled;
    var removed := Shrink(total, available, minSize, s).value;
    ShrinkMeans(total, available, minSize, s);
    if total > available {
      StaysBelow((total - available) as real, total as real, (total - removed) as real, s.expandAt, s.shrinkAt);
    }
    NoNeedBelow(total - removed, available - removed, maxSize, s);
  }

  /** No shrink, of a pool of any size, leaves a pool that needs an expansion at once. */
  ghost predicate NeverExpandsAfterShrinking(s: Strategy)
    requires s.factors != [] && CurrentFactor(s) >= 0.0
  {
    forall total: nat, available: nat, minSize: nat, maxSize: nat
      | available <= total && Shrink(total, available, minSize, s).Some? ::
      StaysShrunk(total, available, minSize, maxSize, s)
  }

  ghost predicate StaysShrunk(total: nat, available: nat, minSize: nat, maxSize: nat, s: Strategy)
    requires available <= total && s.factors != [] && CurrentFactor(s) >= 0.0
    requires Shrink(total, available, minSize, s).Some?
  {
    var removed := Shrink(total, available, minSize, s).value;
    removed <= available && Expand(total - removed, available - removed, maxSize, s) == NotNeeded
  }

  /** The most used pool of this size that shrinks is idle, or stays below the expansion threshold. */
  predicate ShrunkEnough(s: Strategy, total: nat)
    requires s.shrinkAt >= 0.0
  {
    var used := Scaled(total, s.shrinkAt);
    used == 0 || used as real < s.expandAt * Scaled(total, SHRINK_FACTOR) as real
  }

  /** Exactly when shrinks are not undone at once, for pools of every size. */
  lemma NeverExpandsAfterShrinkingExactlyWhen(s: Strategy)
    requires Sane(s) && 0.0 < s.expandAt <= 1.0 && 0.0 < s.shrinkAt <= 1.0
    ensures NeverExpandsAfterShrinking(s) <==> forall total: nat :: total > 0 ==> ShrunkEnough(s, total)
  {
    hide Expand, Shrink, Utilization, Scaled, ShrunkEnough;
    if forall total: nat :: total > 0 ==> ShrunkEnough(s, total) {
      forall total: nat, available: nat, minSize: nat, maxSize: nat
        | available <= total && Shrink(total, available, minSize, s).Some?
        ensures StaysShrunk(total, available, minSize, maxSize, s)
      {
        ShrinkMeans(total, available, minSize, s);
        StaysShrunkWhen(total, available, minSize, maxSize, s);
      }
    } else {
      var total: nat :| total > 0 && !ShrunkEnough(s, total);
      ExpandsAtOnce(total, s);
    }
  }

  lemma StaysShrunkWhen(total: nat, available: nat, minSize: nat, maxSize: nat, s: Strategy)
    requires available <= total && Sane(s) && s.expandAt > 0.0 && s.shrinkAt > 0.0
    requires Shrink(total, available, minSize, s).Some? && ShrunkEnough(s, total)
    ensures StaysShrunk(total, available, minSize, maxSize, s)
  {
    hide Expand, Shrink, Utilization, Scaled;
    ShrinkMeans(total, available, minSize, s);
    var removed := Shrink(total, available, minSize, s).value;
    AtMostScaled(total - available, total, s.shrinkAt);
    AtLeastScaled(total - removed, total, SHRINK_FACTOR);
    UsedBelow(total - available, total - removed, Scaled(total, s.shrinkAt), Scaled(total, SHRINK_FACTOR), s.expandAt);
    NoNeedBelow(total - removed, available - removed, maxSize, s);
  }

  lemma AtMostScaled(n: nat, size: nat, factor: real)
    requires factor >= 0.0 && n as real <= factor * size as real
    ensures n <= Scaled(size, factor)
  {
  }

  lemma AtLeastScaled(n: nat, size: nat, factor: real)
    requires factor >= 0.0 && n as real > factor * size as real - 1.0
    ensures Scaled(size, factor) <= n
  {
  }

  lemma UsedBelow(used: nat, left: nat, most: nat, least: nat, e: real)
    requires used <= most && least <= left && e > 0.0
    requires most == 0 || most as real < e * least as real
    ensures used == 0 || used as real < e * left as real
  {
    MultiplyOrdered(least as real, left as real, e);
  }

  /** The pool that shrinks, and needs to expand at once: used as much as a pool of its size may be to shrink. */
  lemma ExpandsAtOnce(total: nat, s: Strategy)
    requires Sane(s) && 0.0 < s.expandAt <= 1.0 && 0.0 < s.shrinkAt <= 1.0
    requires total > 0 && !ShrunkEnough(s, total)
    ensures !NeverExpandsAfterShrinking(s)
  {
    hide Expand, Shrink, Utilization, Scaled;
    var used, size := Scaled(total, s.shrinkAt), Scaled(total, SHRINK_FACTOR);
    ScaledFits(total, s.shrinkAt);
    var left := if used < size then size else used;
    ShrinkLeaves(total, used, s);
    MultiplyOrdered(s.expandAt, 1.0, left as real);
    NeedsExpansion(left, used, s);
    assert !StaysShrunk(total, total - used, 0, 0, s);
  }

  lemma ScaledFits(size: nat, factor: real)
    requires 0.0 <= factor <= 1.0
    ensures Scaled(size, factor) <= size && Scaled(size, factor) as real <= factor * size as real
  {
    hide Scaled;
    ProductAtMost(size as real, factor);
  }

  lemma ProductAtMost(a: real, factor: real)
    requires a >= 0.0 && factor <= 1.0
    ensures a * factor <= a && a * factor == factor * a
  {
    MultiplyOrdered(factor, 1.0, a);
  }

  /** A shrink without a minimum size takes a fifth, but never a connection in use. */
  lemma ShrinkLeaves(total: nat, used: nat, s: Strategy)
    requires 0 < total && used <= total && used as real <= s.shrinkAt * total as real
    ensures var size := Scaled(total, SHRINK_FACTOR);
      && size <= total
      && Shrink(total, total - used, 0, s) == Some(total - if used < size then size else used)
  {
    hide Utilization, Scaled;
    MultiplyStrictly(SHRINK_FACTOR, 1.0, total as real);
    AtLeastThreshold(total, total - used, s.shrinkAt);
  }

  lemma NeedsExpansion(total: nat, used: nat, s: Strategy)
    requires Sane(s) && 0 < total && used <= total && used as real >= s.expandAt * total as real
    ensures Expand(total, total - used, 0, s) != NotNeeded
  {
    hide Utilization, Scaled;
    AtLeastThreshold(total, total - used, s.expandAt);
  }

  // The condition is a finite check.

  /** Beyond this size every pool stays down. */
  function LastCritical(s: Strategy): nat
    requires s.expandAt > 0.0 && s.shrinkAt < SHRINK_FACTOR * s.expandAt
  {
    NonNegativeQuotient(s.expandAt, SHRINK_FACTOR * s.expandAt - s.shrinkAt);
    RoundedDown(s.expandAt / (SHRINK_FACTOR * s.expandAt - s.shrinkAt))
  }

  function RoundedDown(x: real): (n: nat)
    requires x >= 0.0
    ensures n as real <= x < n as real + 1.0
  {
    x.Floor
  }

  lemma NonNegativeQuotient(a: real, b: real)
    requires a > 0.0 && b > 0.0
    ensures a / b >= 0.0
  {
    var x := a / b;
    assert x * b == a;
    if x < 0.0 {
      PositiveProduct(-x, b);
    }
  }

  lemma QuotientBelow(a: real, b: real, c: real)
    requires b > 0.0 && a / b < c
    ensures c * b > a
  {
    var x := a / b;
    assert x * b == a;
    MultiplyStrictly(x, c, b);
  }

  lemma LargePoolsStayDown(s: Strategy, total: nat)
    requires s.expandAt > 0.0 && 0.0 < s.shrinkAt < SHRINK_FACTOR * s.expandAt && total > LastCritical(s)
    ensures ShrunkEnough(s, total)
  {
    var e, h, t := s.expandAt, s.shrinkAt, total as real;
    var d := SHRINK_FACTOR * e - h;
    QuotientBelow(e, d, t);
    BelowAtLarge(t, Scaled(total, h) as real, Scaled(total, SHRINK_FACTOR) as real, e, h, d);
  }

  lemma BelowAtLarge(t: real, used: real, size: real, e: real, h: real, d: real)
    requires e > 0.0 && used <= t * h && size > t * SHRINK_FACTOR - 1.0 && d == SHRINK_FACTOR * e - h && t * d > e
    ensures used < e * size
  {
    MultiplyStrictly(t * SHRINK_FACTOR - 1.0, size, e);
    assert (t * SHRINK_FACTOR - 1.0) * e == t * (SHRINK_FACTOR * e) - e;
    assert t * d == t * (SHRINK_FACTOR * e) - t * h;
  }

  /** Above four fifths of the expansion threshold, a large enough pool does not stay down. */
  lemma LargePoolDoesNotStayDown(s: Strategy) returns (total: nat)
    requires s.expandAt > 0.0 && s.shrinkAt > SHRINK_FACTOR * s.expandAt
    ensures total > 0 && !ShrunkEnough(s, total)
  {
    hide ShrunkEnough;
    total := GapExceedsOne(s.shrinkAt, SHRINK_FACTOR * s.expandAt);
    NotShrunkEnough(s, total);
  }

  lemma GapExceedsOne(high: real, low: real) returns (n: nat)
    requires high > low
    ensures n > 0 && n as real * high > n as real * low + 1.0
  {
    var gap := high - low;
    NonNegativeQuotient(1.0, gap);
    n := RoundedUp(1.0 / gap) + 1;
    QuotientBelow(1.0, gap, n as real);
    Distribute(n as real, high, low, gap);
  }

  lemma Distribute(a: real, high: real, low: real, gap: real)
    requires high == low + gap
    ensures a * high == a * low + a * gap
  {
  }

  lemma NotShrunkEnough(s: Strategy, total: nat)
    requires s.expandAt > 0.0 && s.shrinkAt >= 0.0 && total > 0
    requires total as real * s.shrinkAt > total as real * (SHRINK_FACTOR * s.expandAt) + 1.0
    ensures !ShrunkEnough(s, total)
  {
    hide Scaled;
    var used, size := Scaled(total, s.shrinkAt), Scaled(total, SHRINK_FACTOR);
    FewerWouldDo(total as real, size as real, s.expandAt);
    NonNegativeProduct(size as real, s.expandAt);
  }

  lemma FewerWouldDo(t: real, size: real, e: real)
    requires e > 0.0 && size <= t * SHRINK_FACTOR
    ensures e * size <= t * (SHRINK_FACTOR * e)
  {
    MultiplyOrdered(size, t * SHRINK_FACTOR, e);
    assert (t * SHRINK_FACTOR) * e == t * (SHRINK_FACTOR * e);
  }

  /** At four fifths of a rational expansion threshold and above, some pool does not stay down. */
  lemma SomePoolDoesNotStayDown(s: Strategy) returns (total: nat)
    requires s.expandAt > 0.0 && s.shrinkAt >= SHRINK_FACTOR * s.expandAt && Rational(s.expandAt)
    ensures total > 0 && !ShrunkEnough(s, total)
  {
    var e, h := s.expandAt, s.shrinkAt;
    var p: nat, q: nat :| IsFraction(e, p, q);
    assert p > 0 by { PositiveProduct(e, q as real); }
    total := 5 * q;
    assert Scaled(total, SHRINK_FACTOR) == 4 * q;
    assert e * (4 * q) as real == (4 * p) as real;
    MultiplyOrdered(SHRINK_FACTOR * e, h, total as real);
    assert (SHRINK_FACTOR * e) * total as real == (4 * p) as real;
    assert Scaled(total, h) >= 4 * p;
  }

  /**
  The exact condition is an inequality of the thresholds and a check of finitely many sizes; only where the
  inequality becomes an equality does the expansion threshold have to be rational, as all floating-point ones are.
  */
  lemma NeverExpandsAfterShrinkingIsChecked(s: Strategy)
    requires Sane(s) && 0.0 < s.expandAt <= 1.0 && 0.0 < s.shrinkAt <= 1.0
    requires s.shrinkAt == SHRINK_FACTOR * s.expandAt ==> Rational(s.expandAt)
    ensures NeverExpandsAfterShrinking(s) <==>
            && s.shrinkAt < SHRINK_FACTOR * s.expandAt
            && forall total: nat :: 0 < total <= LastCritical(s) ==> ShrunkEnough(s, total)
  {
    hide ShrunkEnough, LastCritical, NeverExpandsAfterShrinking;
    NeverExpandsAfterShrinkingExactlyWhen(s);
    if s.shrinkAt > SHRINK_FACTOR * s.expandAt {
      var total := LargePoolDoesNotStayDown(s);
    } else if s.shrinkAt == SHRINK_FACTOR * s.expandAt {
      var total := SomePoolDoesNotStayDown(s);
    } else {
      forall total: nat | total > LastCritical(s)
        ensures ShrunkEnough(s, total)
      {
        LargePoolsStayDown(s, total);
      }
    }
  }

  /**
  An expansion that goes ahead creates a connection exactly if the current factor adds at least one to
  the size; otherwise it only advances to the next factor, and still reports that it expanded.
  */
  lemma ExpansionGrowsExactlyWhen(total: nat, available: nat, maxSize: nat, s: Strategy)
    requires available <= total && Sane(s)
    requires Expand(total, available, maxSize, s).GrowTo?
    ensures Expand(total, available, maxSize, s).size > total <==> total as real * (CurrentFactor(s) - 1.0) >= 1.0
  {
    var t, f := total as real, CurrentFactor(s);
    assert t * (f - 1.0) == t * f - t;
    MultiplyOrdered(1.0, f, t);
  }

  // ---------- configurations ----------

  datatype SmartPoolConfig = SmartPoolConfig(
    initialSize: nat,
    maxSize: nat,
    expandAt: real,
    shrinkAt: real,
    factors: seq<real>)

  datatype ConfigError =
    | InitialSizeZero
    | MaxBelowInitial
    | ExpansionThresholdOutOfRange
    | ShrinkThresholdOutOfRange
    | ThresholdsNotOrdered
    | NoFactors
    | FactorTooSmall

  const DEFAULT_CONFIG: SmartPoolConfig := SmartPoolConfig(100, 2000, 0.8, 0.3, [2.0, 1.5, 1.2, 1.1])
  const HIGH_PERFORMANCE: SmartPoolConfig := SmartPoolConfig(200, 5000, 0.75, 0.25, [2.5, 2.0, 1.5, 1.2, 1.1])
  const CONSERVATIVE: SmartPoolConfig := SmartPoolConfig(50, 1000, 0.9, 0.2, [1.5, 1.3, 1.2, 1.1])

  function ToStrategy(c: SmartPoolConfig): Strategy {
    Strategy(c.factors, 0, c.expandAt, c.shrinkAt)
  }

  /** What each error says about a configuration. */
  predicate Violates(c: SmartPoolConfig, error: ConfigError) {
    match error
    case InitialSizeZero => c.initialSize == 0
    case MaxBelowInitial => c.maxSize < c.initialSize
    case ExpansionThresholdOutOfRange => c.expandAt <= 0.0 || c.expandAt >= 1.0
    case ShrinkThresholdOutOfRange => c.shrinkAt <= 0.0 || c.shrinkAt >= 1.0
    case ThresholdsNotOrdered => c.expandAt <= c.shrinkAt
    case NoFactors => c.factors == []
    case FactorTooSmall => exists i :: 0 <= i < |c.factors| && c.factors[i] <= 1.0
  }

  method Validate(c: SmartPoolConfig) returns (error: Option<ConfigError>)
    ensures error == None <==>
              && 0 < c.initialSize <= c.maxSize
              && 0.0 < c.shrinkAt < c.expandAt < 1.0
              && c.factors != [] && forall i :: 0 <= i < |c.factors| ==> c.factors[i] > 1.0
    ensures error.Some? ==> Violates(c, error.value)
  {
    if c.initialSize == 0 { return Some(InitialSizeZero); }
    if c.maxSize < c.initialSize { return Some(MaxBelowInitial); }
    if c.expandAt <= 0.0 || c.expandAt >= 1.0 { return Some(ExpansionThresholdOutOfRange); }
    if c.shrinkAt <= 0.0 || c.shrinkAt >= 1.0 { return Some(ShrinkThresholdOutOfRange); }
    if c.expandAt <= c.shrinkAt { return Some(ThresholdsNotOrdered); }
    if c.factors == [] { return Some(NoFactors); }
    for i := 0 to |c.factors|
      invariant forall j :: 0 <= j < i ==> c.factors[j] > 1.0
    {
      if c.factors[i] <= 1.0 { return Some(FactorTooSmall); }
    }
    return None;
  }

  /** A strategy that, whichever factor is current, neither shrinks after expanding nor the reverse. */
  ghost predicate Steady(s: Strategy) {
    && Sane(s) && s.expandAt > 0.0 && s.shrinkAt > 0.0
    && ShrinkStaysDown(s)
    && forall index :: ExpansionStaysUp(s.(index := index))
  }

  lemma SteadyByLargestFactor(s: Strategy, largest: real)
    requires Sane(s) && s.expandAt > 0.0 && s.shrinkAt > 0.0 && ShrinkStaysDown(s)
    requires forall i :: 0 <= i < |s.factors| ==> s.factors[i] <= largest
    requires s.shrinkAt * largest < s.expandAt
    ensures Steady(s)
  {
    forall index
      ensures ExpansionStaysUp(s.(index := index))
    {
      MultiplyOrdered(CurrentFactor(s.(index := index)), largest, s.shrinkAt);
    }
  }

  /** The default strategy and the three presets do not thrash. */
  lemma PresetsAreSteady()
    ensures Steady(DEFAULT_STRATEGY) && Steady(ToStrategy(DEFAULT_CONFIG))
    ensures Steady(ToStrategy(HIGH_PERFORMANCE)) && Steady(ToStrategy(CONSERVATIVE))
    ensures (DEFAULT_CONFIG.initialSize, DEFAULT_CONFIG.maxSize) == (100, 2000)
    ensures (HIGH_PERFORMANCE.initialSize, HIGH_PERFORMANCE.maxSize) == (200, 5000)
    ensures (CONSERVATIVE.initialSize, CONSERVATIVE.maxSize) == (50, 1000)
    ensures DEFAULT_STRATEGY == ToStrategy(DEFAULT_CONFIG) == Strategy([2.0, 1.5, 1.2, 1.1], 0, 0.8, 0.3)
    ensures ToStrategy(HIGH_PERFORMANCE) == Strategy([2.5, 2.0, 1.5, 1.2, 1.1], 0, 0.75, 0.25)
    ensures ToStrategy(CONSERVATIVE) == Strategy([1.5, 1.3, 1.2, 1.1], 0, 0.9, 0.2)
  {
    SteadyByLargestFactor(DEFAULT_STRATEGY, 2.0);
    SteadyByLargestFactor(ToStrategy(DEFAULT_CONFIG), 2.0);
    SteadyByLargestFactor(ToStrategy(HIGH_PERFORMANCE), 2.5);
    SteadyByLargestFactor(ToStrategy(CONSERVATIVE), 1.5);
  }

  /**
  Validation does not ensure this: it accepts a configuration under which a half-used pool of ten expands
  to twenty and at once shrinks to sixteen.
  */
  lemma ValidConfigMayThrash()
    ensures var c := SmartPoolConfig(1, 100, 0.5, 0.4, [2.0]);
            && 0 < c.initialSize <= c.maxSize && 0.0 < c.shrinkAt < c.expandAt < 1.0
            && c.factors != [] && (forall i :: 0 <= i < |c.factors| ==> c.factors[i] > 1.0)
            && Expand(10, 5, c.maxSize, ToStrategy(c)) == GrowTo(20)
            && Shrink(20, 15, c.initialSize, ToStrategy(c)) == Some(4)
  {
    assert 10 as real * 2.0 == 20.0;
    assert 20 as real * 0.8 == 16.0;
  }

  /** Nor the converse: it accepts a configuration that shrinks ten connections to eight and at once doubles them. */
  lemma ValidConfigMayExpandAfterShrink()
    ensures var c := SmartPoolConfig(1, 100, 0.75, 0.7, [2.0]);
            && 0 < c.initialSize <= c.maxSize && 0.0 < c.shrinkAt < c.expandAt < 1.0
            && c.factors != [] && (forall i :: 0 <= i < |c.factors| ==> c.factors[i] > 1.0)
            && Shrink(10, 3, c.initialSize, ToStrategy(c)) == Some(2)
            && Expand(8, 1, c.maxSize, ToStrategy(c)) == GrowTo(16)
            && !NeverExpandsAfterShrinking(ToStrategy(c))
  {
    var s := ToStrategy(SmartPoolConfig(1, 100, 0.75, 0.7, [2.0]));
    assert 10 as real * 0.8 == 8.0;
    assert 8 as real * 2.0 == 16.0;
    assert 7.0 / 10.0 <= 0.7 && 7.0 / 8.0 >= 0.75;
    assert !StaysShrunk(10, 3, 1, 100, s);
  }
}
