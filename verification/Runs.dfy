/** Runs of a step system: a first state that satisfies `init`, then states related by `next`. */
module Runs {
  /** The finite prefixes of the behaviours of a step system. */
  ghost predicate IsRun<S(!new)>(init: S -> bool, next: (S, S) -> bool, run: seq<S>) {
    && |run| > 0
    && init(run[0])
    && forall i :: 0 <= i < |run| - 1 ==> next(run[i], run[i + 1])
  }

  /** An inductive predicate holds in every state of every run. */
  lemma {:induction false} InvariantOfRun<S(!new)>(init: S -> bool, next: (S, S) -> bool, inv: S -> bool, run: seq<S>)
    requires IsRun(init, next, run)
    requires forall s :: init(s) ==> inv(s)
    requires forall s, s' :: inv(s) && next(s, s') ==> inv(s')
    ensures forall i :: 0 <= i < |run| ==> inv(run[i])
  {
    var n := 1;
    while n < |run|
      invariant 1 <= n <= |run|
      invariant forall i :: 0 <= i < n ==> inv(run[i])
    {
      assert next(run[n - 1], run[n - 1 + 1]);
      n := n + 1;
    }
  }
}

/** Sums over the threads of a step system, kept as a sequence indexed by thread. */
module Counting {
  ghost function Sum<T>(weight: T -> nat, threads: seq<T>): nat {
    if threads == [] then 0 else weight(threads[0]) + Sum(weight, threads[1..])
  }

  lemma {:induction false} SumUpdate<T>(weight: T -> nat, threads: seq<T>, t: nat, thread: T)
    requires t < |threads|
    ensures Sum(weight, threads[t := thread]) + weight(threads[t]) == Sum(weight, threads) + weight(thread)
  {
    var changed := threads[t := thread];
    if t == 0 {
      assert changed[1..] == threads[1..];
    } else {
      assert changed[1..] == threads[1..][t - 1 := thread];
      SumUpdate(weight, threads[1..], t - 1, thread);
    }
  }

  lemma {:induction false} SumAtLeast<T>(weight: T -> nat, threads: seq<T>, t: nat)
    requires t < |threads|
    ensures weight(threads[t]) <= Sum(weight, threads)
  {
    if t > 0 {
      SumAtLeast(weight, threads[1..], t - 1);
    }
  }

  lemma {:induction false} SumZero<T>(weight: T -> nat, threads: seq<T>)
    requires forall i :: 0 <= i < |threads| ==> weight(threads[i]) == 0
    ensures Sum(weight, threads) == 0
  {
    if threads != [] {
      SumZero(weight, threads[1..]);
    }
  }

  lemma {:induction false} SumSnoc<T>(weight: T -> nat, threads: seq<T>, thread: T)
    ensures Sum(weight, threads + [thread]) == Sum(weight, threads) + weight(thread)
  {
    if threads != [] {
      assert (threads + [thread])[1..] == threads[1..] + [thread];
      SumSnoc(weight, threads[1..], thread);
    }
  }

  /** Where in a sequence a property holds. */
  ghost function Indices<T>(holds: T -> bool, items: seq<T>): set<nat> {
    set k: nat | k < |items| && holds(items[k])
  }

  lemma IndicesSnoc<T>(holds: T -> bool, items: seq<T>, item: T)
    ensures |Indices(holds, items + [item])| == |Indices(holds, items)| + (if holds(item) then 1 else 0)
  {
    var more := items + [item];
    assert Indices(holds, more) == Indices(holds, items) + (if holds(item) then {|items|} else {});
  }
}
