/**
The queue: an unbounded FIFO channel beside three counters. A push first sends its item and then increments
two counters; a pop first receives an item and then adjusts two counters. The channel's send and receive are
atomic; anything may happen between them and the counter updates.
*/
module LockFreeQueue {
  import opened Prelude
  import opened Counting
  import opened Runs
  import opened Words

  datatype Pc<T> =
    | Idle
    // push: the item is in the channel
    | Sent
    | CountedIn
    // pop: the item is out of the channel
    | Received(item: T)
    | CountedOut(item: T)

  /** `pushed` and `popped`, all that was ever sent and received, and `given`, what pops returned, only observe. */
  datatype State<T> = State(
    items: seq<T>,
    enqueued: nat,
    dequeued: nat,
    size: nat,
    threads: seq<Pc<T>>,
    pushed: seq<T>,
    popped: seq<T>,
    given: multiset<T>)

  /** An idle thread pushes or pops; a thread inside an operation goes on with it. */
  datatype Step<T> = Push(t: nat, item: T) | Pop(t: nat) | GoOn(t: nat)

  ghost predicate Init<T>(s: State<T>) {
    && s.items == s.pushed == s.popped == [] && s.given == multiset{}
    && s.enqueued == s.dequeued == s.size == 0
    && forall t :: 0 <= t < |s.threads| ==> s.threads[t].Idle?
  }

  ghost predicate Enabled<T>(s: State<T>, step: Step<T>) {
    && step.t < |s.threads|
    && (step.GoOn? <==> !s.threads[step.t].Idle?)
  }

  ghost function Exec<T>(s: State<T>, step: Step<T>): State<T>
    requires Enabled(s, step)
  {
    match step
    case Push(t, item) =>
      s.(items := s.items + [item], pushed := s.pushed + [item], threads := s.threads[t := Sent])
    case Pop(t) =>
      if s.items == [] then s
      else
        s.(items := s.items[1..], popped := s.popped + [s.items[0]], threads := s.threads[t := Received(s.items[0])])
    case GoOn(t) =>
      match s.threads[t]
      case Sent => s.(enqueued := (s.enqueued + 1) % WORD, threads := s.threads[t := CountedIn])
      case CountedIn => s.(size := (s.size + 1) % WORD, threads := s.threads[t := Idle])
      case Received(item) => s.(dequeued := (s.dequeued + 1) % WORD, threads := s.threads[t := CountedOut(item)])
      case CountedOut(item) =>
        s.(size := (s.size - 1) % WORD, threads := s.threads[t := Idle], given := s.given + multiset{item})
  }

  ghost predicate Next<T(!new)>(s: State<T>, s': State<T>) {
    exists step :: Enabled(s, step) && s' == Exec(s, step)
  }

  // ---------- updates that are owed ----------

  ghost function OwesEnqueued<T>(pc: Pc<T>): nat {
    if pc.Sent? then 1 else 0
  }

  ghost function OwesDequeued<T>(pc: Pc<T>): nat {
    if pc.Received? then 1 else 0
  }

  ghost function OwesPlus<T>(pc: Pc<T>): nat {
    if pc.Sent? || pc.CountedIn? then 1 else 0
  }

  ghost function OwesMinus<T>(pc: Pc<T>): nat {
    if pc.Received? || pc.CountedOut? then 1 else 0
  }

  ghost predicate TotalsOk<T>(s: State<T>) {
    && s.enqueued == (|s.pushed| - Sum(OwesEnqueued, s.threads)) % WORD
    && s.dequeued == (|s.popped| - Sum(OwesDequeued, s.threads)) % WORD
  }

  ghost predicate SizeOk<T>(s: State<T>) {
    s.size == (|s.items| - Sum(OwesPlus, s.threads) + Sum(OwesMinus, s.threads)) % WORD
  }

  ghost predicate Inv<T>(s: State<T>) {
    s.popped + s.items == s.pushed && TotalsOk(s) && SizeOk(s)
  }

  lemma SumsStep<T>(s: State<T>, t: nat, pc: Pc<T>)
    requires t < |s.threads|
    ensures var next := s.threads[t := pc];
      && Sum(OwesEnqueued, next) + OwesEnqueued(s.threads[t]) == Sum(OwesEnqueued, s.threads) + OwesEnqueued(pc)
      && Sum(OwesDequeued, next) + OwesDequeued(s.threads[t]) == Sum(OwesDequeued, s.threads) + OwesDequeued(pc)
      && Sum(OwesPlus, next) + OwesPlus(s.threads[t]) == Sum(OwesPlus, s.threads) + OwesPlus(pc)
      && Sum(OwesMinus, next) + OwesMinus(s.threads[t]) == Sum(OwesMinus, s.threads) + OwesMinus(pc)
  {
    SumUpdate(OwesEnqueued, s.threads, t, pc);
    SumUpdate(OwesDequeued, s.threads, t, pc);
    SumUpdate(OwesPlus, s.threads, t, pc);
    SumUpdate(OwesMinus, s.threads, t, pc);
  }

  lemma StepKeepsInv<T>(s: State<T>, step: Step<T>)
    requires Inv(s) && Enabled(s, step)
    ensures Inv(Exec(s, step))
  {
    hide TotalsOk, SizeOk;
    KeepsTotals(s, step);
    KeepsSize(s, step);
    if step.Pop? && s.items != [] {
      assert s.items == [s.items[0]] + s.items[1..];
    }
  }

  lemma KeepsTotals<T>(s: State<T>, step: Step<T>)
    requires TotalsOk(s) && Enabled(s, step)
    ensures TotalsOk(Exec(s, step))
  {
    hide Sum;
    var s' := Exec(s, step);
    SumsStep(s, step.t, s'.threads[step.t]);
    assert s'.threads == s.threads[step.t := s'.threads[step.t]];
    AddThenReduce(|s.pushed| - Sum(OwesEnqueued, s.threads), 1);
    AddThenReduce(|s.popped| - Sum(OwesDequeued, s.threads), 1);
  }

  lemma KeepsSize<T>(s: State<T>, step: Step<T>)
    requires SizeOk(s) && Enabled(s, step)
    ensures SizeOk(Exec(s, step))
  {
    hide Sum;
    var s' := Exec(s, step);
    SumsStep(s, step.t, s'.threads[step.t]);
    assert s'.threads == s.threads[step.t := s'.threads[step.t]];
    AddThenReduce(|s.items| - Sum(OwesPlus, s.threads) + Sum(OwesMinus, s.threads), 1);
    AddThenReduce(|s.items| - Sum(OwesPlus, s.threads) + Sum(OwesMinus, s.threads), -1);
  }

  lemma InitHasInv<T>(s: State<T>)
    requires Init(s)
    ensures Inv(s)
  {
    SumZero(OwesEnqueued, s.threads);
    SumZero(OwesDequeued, s.threads);
    SumZero(OwesPlus, s.threads);
    SumZero(OwesMinus, s.threads);
  }

  lemma InvOfRun<T(!new)>(run: seq<State<T>>)
    requires IsRun(Init, Next, run)
    ensures forall i :: 0 <= i < |run| ==> Inv(run[i])
  {
    forall s: State<T> | Init(s)
      ensures Inv(s)
    {
      InitHasInv(s);
    }
    forall s: State<T>, s' | Inv(s) && Next(s, s')
      ensures Inv(s')
    {
      var step :| Enabled(s, step) && s' == Exec(s, step);
      StepKeepsInv(s, step);
    }
    InvariantOfRun(Init, Next, Inv, run);
  }

  // ---------- what every run keeps ----------

  /** What was popped, followed by what is still queued, is what was pushed: nothing lost, doubled or reordered. */
  lemma FifoAndConservation<T(!new)>(run: seq<State<T>>, i: nat)
    requires IsRun(Init, Next, run) && i < |run|
    ensures run[i].popped + run[i].items == run[i].pushed
  {
    InvOfRun(run);
  }

  /** Whether a thread inside a pop is about to return this item. */
  ghost function CarriesOne<T(!new)>(item: T): Pc<T> -> nat {
    (pc: Pc<T>) => if (pc.Received? || pc.CountedOut?) && pc.item == item then 1 else 0
  }

  ghost predicate GivenOk<T(!new)>(s: State<T>) {
    forall item :: ItemOk(s, item)
  }

  ghost predicate ItemOk<T(!new)>(s: State<T>, item: T) {
    multiset(s.popped)[item] == s.given[item] + Sum(CarriesOne(item), s.threads)
  }

  lemma KeepsItem<T(!new)>(s: State<T>, step: Step<T>, item: T)
    requires ItemOk(s, item) && Enabled(s, step)
    ensures ItemOk(Exec(s, step), item)
  {
    hide Sum;
    var s' := Exec(s, step);
    SumUpdate(CarriesOne(item), s.threads, step.t, s'.threads[step.t]);
    assert s'.threads == s.threads[step.t := s'.threads[step.t]];
  }

  /** Every item popped is returned by one pop: all of them once no operation is under way, and none twice before. */
  lemma PoppedIsReturned<T(!new)>(run: seq<State<T>>, i: nat)
    requires IsRun(Init, Next, run) && i < |run|
    ensures run[i].given <= multiset(run[i].popped)
    ensures (forall t :: 0 <= t < |run[i].threads| ==> run[i].threads[t].Idle?) ==>
              run[i].given == multiset(run[i].popped)
  {
    hide Exec, Enabled, ItemOk;
    forall s: State<T> | Init(s)
      ensures GivenOk(s)
    {
      NothingCarried(s);
    }
    forall s: State<T>, s' | GivenOk(s) && Next(s, s')
      ensures GivenOk(s')
    {
      var step :| Enabled(s, step) && s' == Exec(s, step);
      forall item
        ensures ItemOk(s', item)
      {
        KeepsItem(s, step, item);
      }
    }
    InvariantOfRun(Init, Next, GivenOk, run);
    GivenIs(run[i]);
  }

  lemma NothingCarried<T(!new)>(s: State<T>)
    requires Init(s)
    ensures GivenOk(s)
  {
    forall item
      ensures ItemOk(s, item)
    {
      SumZero(CarriesOne(item), s.threads);
    }
  }

  lemma GivenIs<T(!new)>(s: State<T>)
    requires GivenOk(s)
    ensures s.given <= multiset(s.popped)
    ensures (forall t :: 0 <= t < |s.threads| ==> s.threads[t].Idle?) ==> s.given == multiset(s.popped)
  {
    forall item
      ensures s.given[item] <= multiset(s.popped)[item]
    {
      assert ItemOk(s, item);
    }
    if forall t :: 0 <= t < |s.threads| ==> s.threads[t].Idle? {
      forall item
        ensures s.given[item] == multiset(s.popped)[item]
      {
        assert ItemOk(s, item);
        SumZero(CarriesOne(item), s.threads);
      }
    }
  }

  /** The size counter, corrected by the updates the threads still owe, is the queue's length. */
  lemma SizeCorrected<T(!new)>(run: seq<State<T>>, i: nat)
    requires IsRun(Init, Next, run) && i < |run|
    ensures run[i].size == (|run[i].items| - Sum(OwesPlus, run[i].threads) + Sum(OwesMinus, run[i].threads)) % WORD
    ensures run[i].enqueued == (|run[i].pushed| - Sum(OwesEnqueued, run[i].threads)) % WORD
    ensures run[i].dequeued == (|run[i].popped| - Sum(OwesDequeued, run[i].threads)) % WORD
  {
    InvOfRun(run);
  }

  lemma {:induction false} SumAtMost<T>(weight: T -> nat, threads: seq<T>)
    requires forall pc :: pc in threads ==> weight(pc) <= 1
    ensures Sum(weight, threads) <= |threads|
  {
    if threads != [] {
      assert threads[0] in threads;
      SumAtMost(weight, threads[1..]);
    }
  }

  /**
  len() is exact exactly when as many increments as decrements are owed. Otherwise it is off by what is owed,
  and it wraps round to a huge number exactly when more increments are owed than there are items and owed
  decrements: pops have overtaken the counting of the pushes they answered.
  */
  lemma LenIsExactExactlyWhen<T(!new)>(run: seq<State<T>>, i: nat)
    requires IsRun(Init, Next, run) && i < |run|
    requires |run[i].items| + |run[i].threads| < WORD / 2
    ensures var s := run[i];
      var plus := Sum(OwesPlus, s.threads);
      var minus := Sum(OwesMinus, s.threads);
      && (s.size == |s.items| <==> plus == minus)
      && (s.size >= WORD / 2 <==> plus > |s.items| + minus)
      && (plus <= |s.items| + minus ==> s.size == |s.items| - plus + minus)
  {
    InvOfRun(run);
    var s := run[i];
    SumAtMost(OwesPlus, s.threads);
    SumAtMost(OwesMinus, s.threads);
    var exact := |s.items| - Sum(OwesPlus, s.threads) + Sum(OwesMinus, s.threads);
    if exact < 0 {
      SameResidue(exact, 1);
      assert exact % WORD == exact + WORD;
    }
  }

  /** Once every operation has returned, all three counters tell the truth. */
  lemma CountersAtRest<T(!new)>(run: seq<State<T>>, i: nat)
    requires IsRun(Init, Next, run) && i < |run|
    requires forall t :: 0 <= t < |run[i].threads| ==> run[i].threads[t].Idle?
    requires |run[i].pushed| < WORD
    ensures run[i].size == |run[i].items|
    ensures run[i].enqueued == |run[i].pushed| && run[i].dequeued == |run[i].popped|
    ensures run[i].enqueued - run[i].dequeued == run[i].size
  {
    var s := run[i];
    FifoAndConservation(run, i);
    SizeCorrected(run, i);
    SumZero(OwesEnqueued, s.threads);
    SumZero(OwesDequeued, s.threads);
    SumZero(OwesPlus, s.threads);
    SumZero(OwesMinus, s.threads);
  }

  lemma ExtendRun<T(!new)>(run: seq<State<T>>, step: Step<T>) returns (longer: seq<State<T>>)
    requires IsRun(Init, Next, run) && Enabled(run[|run| - 1], step)
    ensures IsRun(Init, Next, longer) && |longer| == |run| + 1
    ensures longer[|run|] == Exec(run[|run| - 1], step)
  {
    longer := run + [Exec(run[|run| - 1], step)];
  }

  /** An operation takes three steps of its thread: from any state, a push or a pop that is left alone completes. */
  lemma OperationCompletes<T(!new)>(run: seq<State<T>>, step: Step<T>) returns (longer: seq<State<T>>)
    requires IsRun(Init, Next, run) && Enabled(run[|run| - 1], step) && !step.GoOn?
    requires step.Pop? ==> run[|run| - 1].items != []
    ensures IsRun(Init, Next, longer) && |longer| == |run| + 3
    ensures var s, s' := run[|run| - 1], longer[|longer| - 1];
      && step.t < |s'.threads| && s'.threads[step.t].Idle?
      && match step
         case Push(_, item) => s'.items == s.items + [item] && s'.given == s.given
         case Pop(_) => s'.items == s.items[1..] && s'.given == s.given + multiset{s.items[0]}
  {
    longer := ExtendRun(run, step);
    longer := ExtendRun(longer, GoOn(step.t));
    longer := ExtendRun(longer, GoOn(step.t));
  }

  /** A pop that overtakes a push's counting leaves an empty queue whose len() is the largest word. */
  lemma LenOfEmptyQueueMayBeHuge(n: nat) returns (run: seq<State<nat>>)
    requires n >= 2
    ensures IsRun(Init, Next, run) && |run[|run| - 1].threads| == n
    ensures run[|run| - 1].items == [] && run[|run| - 1].size == 0xFFFF_FFFF_FFFF_FFFF
    ensures run[|run| - 1].threads[1].Idle?
  {
    var threads := seq(n, _ => Idle);
    run := [State([], 0, 0, 0, threads, [], [], multiset{})];
    run := ExtendRun(run, Push(0, 7));
    run := ExtendRun(run, Pop(1));
    assert run[|run| - 1] == State([], 0, 0, 0, threads[0 := Sent][1 := Received(7)], [7], [7], multiset{});
    run := ExtendRun(run, GoOn(1));
    run := ExtendRun(run, GoOn(1));
  }

  /** In a run of `n` threads, a thread that is not inside an operation can call len(). */
  ghost predicate MayReadLen(run: seq<State<nat>>, i: nat, t: nat, n: nat) {
    && IsRun(Init, Next, run) && i < |run| && |run[i].items| < WORD
    && |run[i].threads| == n && t < n && run[i].threads[t].Idle?
  }

  ghost predicate LenIsTrustworthy(n: nat) {
    forall run: seq<State<nat>>, i: nat, t: nat :: MayReadLen(run, i, t, n) ==> LenIsRight(run[i])
  }

  ghost predicate LenIsRight<T>(s: State<T>) {
    s.size == |s.items|
  }

  /** Callers can rely on len(), and so on is_empty(), exactly if there is no more than one of them. */
  lemma LenIsTrustworthyExactlyWhenAlone(n: nat)
    ensures LenIsTrustworthy(n) <==> n <= 1
  {
    if n <= 1 {
      forall run: seq<State<nat>>, i: nat, t: nat | MayReadLen(run, i, t, n)
        ensures LenIsRight(run[i])
      {
        SizeCorrected(run, i);
        SumZero(OwesPlus, run[i].threads);
        SumZero(OwesMinus, run[i].threads);
      }
    } else {
      var run := LenOfEmptyQueueMayBeHuge(n);
      assert MayReadLen(run, |run| - 1, 1, n) && !LenIsRight(run[|run| - 1]);
    }
  }

  // ---------- one thread ----------

  /** The queue as one thread at a time uses it. */
  class Queue<T> {
    var items: seq<T>
    var enqueued: nat
    var dequeued: nat
    var size: nat

    /** Between calls the counters are exact, modulo the word. */
    ghost predicate Valid()
      reads this
    {
      && size == |items| % WORD
      && (enqueued - dequeued) % WORD == size
      && enqueued < WORD && dequeued < WORD
    }

    constructor ()
      ensures Valid() && items == []
    {
      items, enqueued, dequeued, size := [], 0, 0, 0;
    }

    method Push(item: T)
      requires Valid()
      modifies this
      ensures Valid() && items == old(items) + [item]
      ensures enqueued == (old(enqueued) + 1) % WORD && dequeued == old(dequeued)
    {
      AddThenReduce(|items|, 1);
      AddThenReduce(enqueued - dequeued, 1);
      AddThenReduce(enqueued + 1, 0 - dequeued);
      items := items + [item];
      enqueued := (enqueued + 1) % WORD;
      size := (size + 1) % WORD;
    }

    method Pop() returns (item: Option<T>)
      requires Valid()
      modifies this
      ensures Valid() && enqueued == old(enqueued)
      ensures item == if old(items) == [] then None else Some(old(items)[0])
      ensures items == if old(items) == [] then [] else old(items)[1..]
      ensures dequeued == if old(items) == [] then old(dequeued) else (old(dequeued) + 1) % WORD
    {
      if items == [] {
        return None;
      }
      AddThenReduce(|items|, -1);
      AddThenReduce(enqueued - dequeued, -1);
      ReduceSubtrahend(enqueued, dequeued + 1);
      item := Some(items[0]);
      items := items[1..];
      dequeued := (dequeued + 1) % WORD;
      size := (size - 1) % WORD;
    }

    method Len() returns (len: nat)
      requires Valid()
      ensures |items| < WORD ==> len == |items|
    {
      len := size;
    }
  }
}
