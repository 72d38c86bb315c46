/**
The counters of the connection pool under every interleaving. They are updated one by one after the queue and
the map have changed, so in between they are off by exactly what the operations in progress still owe.
*/
module PoolCounters {
  import opened Counting
  import opened PoolOwnership
  import opened Runs
  import opened Words

  // ---------- what is owed ----------

  /** In the map, but not yet counted in `total`. */
  ghost function OwesTotalUp(pc: Pc): nat {
    if pc.Created? || pc.Pushed? then 1 else 0
  }

  /** Out of the map, but still counted in `total`. */
  ghost function OwesTotalDown(pc: Pc): nat {
    if pc.Removed? then 1 else 0
  }

  /** In the queue, but not yet counted in `available`. */
  ghost function OwesAvailableUp(pc: Pc): nat {
    if pc.Returned? || pc.Pushed? || pc.PushedOnce? then 1 else 0
  }

  /** Out of the queue, but still counted in `available`. */
  ghost function OwesAvailableDown(pc: Pc): nat {
    if pc.Popped? || pc.Copied? || pc.Marked? || pc.Shrinking? || pc.Removed? || pc.RemovedOnce? then 1 else 0
  }

  /** No longer with a client, but still counted in `active`. */
  ghost function OwesActiveDown(pc: Pc): nat {
    if pc.GivenBack? || pc.BackCopied? || pc.Stored? || pc.Returned? || pc.ReturnedOnce? then 1 else 0
  }

  ghost function WorksOne(pc: Pc): nat {
    if Works(pc) then 1 else 0
  }

  ghost function Total(s: State): int {
    |s.conns| - Sum(OwesTotalUp, s.threads) + Sum(OwesTotalDown, s.threads)
  }

  /** A connection whose removal gave up is lost, and stays counted as available. */
  ghost function Available(s: State): int {
    |s.queue| + |s.lost| - Sum(OwesAvailableUp, s.threads) + Sum(OwesAvailableDown, s.threads)
  }

  ghost function Active(s: State): int {
    |s.held| + Sum(OwesActiveDown, s.threads)
  }

  ghost predicate CountersOk(s: State) {
    && s.total == Total(s) % WORD
    && s.available == Available(s) % WORD
    && s.active == Active(s) % WORD
  }

  /** Every connection of the map is in the queue, with a client, lost, or in an operation. */
  ghost predicate Conserved(s: State) {
    |s.conns| == |s.queue| + |s.held| + |s.lost| + Sum(WorksOne, s.threads)
  }

  // ---------- each step keeps it ----------

  lemma SumsStep(s: State, step: Step)
    requires Enabled(s, step)
    ensures var s' := Exec(s, step);
      var pc, pc' := s.threads[step.t], s'.threads[step.t];
      && Sum(OwesTotalUp, s'.threads) + OwesTotalUp(pc) == Sum(OwesTotalUp, s.threads) + OwesTotalUp(pc')
      && Sum(OwesTotalDown, s'.threads) + OwesTotalDown(pc) == Sum(OwesTotalDown, s.threads) + OwesTotalDown(pc')
      && Sum(OwesAvailableUp, s'.threads) + OwesAvailableUp(pc)
         == Sum(OwesAvailableUp, s.threads) + OwesAvailableUp(pc')
      && Sum(OwesAvailableDown, s'.threads) + OwesAvailableDown(pc)
         == Sum(OwesAvailableDown, s.threads) + OwesAvailableDown(pc')
      && Sum(OwesActiveDown, s'.threads) + OwesActiveDown(pc) == Sum(OwesActiveDown, s.threads) + OwesActiveDown(pc')
      && Sum(WorksOne, s'.threads) + WorksOne(pc) == Sum(WorksOne, s.threads) + WorksOne(pc')
  {
    var pc' := Exec(s, step).threads[step.t];
    OnlyMoverMoves(s, step);
    SumUpdate(OwesTotalUp, s.threads, step.t, pc');
    SumUpdate(OwesTotalDown, s.threads, step.t, pc');
    SumUpdate(OwesAvailableUp, s.threads, step.t, pc');
    SumUpdate(OwesAvailableDown, s.threads, step.t, pc');
    SumUpdate(OwesActiveDown, s.threads, step.t, pc');
    SumUpdate(WorksOne, s.threads, step.t, pc');
  }

  lemma OnlyMoverMoves(s: State, step: Step)
    requires Enabled(s, step)
    ensures |Exec(s, step).threads| == |s.threads|
    ensures Exec(s, step).threads == s.threads[step.t := Exec(s, step).threads[step.t]]
  {
    if step.Count? {
    } else if step.Pop? || step.Read? || step.MarkInUse? || step.GiveBack? {
    } else if step.ReadBack? || step.MarkAvailable? || step.PushBack? {
    } else {
    }
  }

  /** The connection an operation works on is in the map, and neither with a client nor lost. */
  ghost predicate MoverOk(s: State, pc: Pc) {
    && (Works(pc) ==> pc.id in s.conns && pc.id !in s.held && pc.id !in s.lost)
    && (pc.Drawn? ==> pc.id !in s.conns)
  }

  lemma MoverIsOk(s: State, t: nat)
    requires Inv(s) && t < |s.threads|
    ensures MoverOk(s, s.threads[t])
  {
    var pc := s.threads[t];
    assert PcOk(s, pc);
    if Works(pc) {
      assert PlaceOk(s, pc.id);
      OwnerInMap(s, t);
      SumAtLeast(OwnsOne(pc.id), s.threads, t);
    }
  }

  // How a step changes the sizes of the queue, the map, the clients' connections and the lost ones.

  ghost function QueueGain(step: Step): int {
    if step.Pop? || step.ShrinkPop? then -1 else if step.PushBack? || step.PushNew? then 1 else 0
  }

  ghost function MapGain(step: Step): int {
    if step.ShrinkRemove? && step.ok then -1 else if step.Create? && step.ok then 1 else 0
  }

  ghost function HeldGain(s: State, step: Step): int
    requires Enabled(s, step)
  {
    if step.GiveBack? then -1 else if step.Count? && s.threads[step.t].MarkedOnce? then 1 else 0
  }

  ghost function LostGain(step: Step): int {
    if step.ShrinkRemove? && !step.ok then 1 else 0
  }

  lemma SizeAfterPut<K, V>(m: map<K, V>, key: K, value: V)
    ensures |m[key := value]| == |m| + (if key in m then 0 else 1)
  {
    assert m[key := value].Keys == m.Keys + {key};
  }

  lemma SizeAfterRemoval<K, V>(m: map<K, V>, key: K)
    ensures |m - {key}| == |m| - (if key in m then 1 else 0)
  {
    assert (m - {key}).Keys == m.Keys - {key};
  }

  lemma MapSizes(s: State, step: Step)
    requires Enabled(s, step) && MoverOk(s, s.threads[step.t])
    ensures |Exec(s, step).conns| == |s.conns| + MapGain(step)
  {
    var pc := s.threads[step.t];
    if step.MarkInUse? {
      SizeAfterPut(s.conns, pc.id, Connection(true, pc.copy.useCount + 1));
    } else if step.MarkAvailable? {
      SizeAfterPut(s.conns, pc.id, Connection(false, pc.copy.useCount));
    } else if step.ShrinkRemove? {
      SizeAfterRemoval(s.conns, pc.id);
    } else if step.Create? {
      SizeAfterPut(s.conns, pc.id, Connection(false, 0));
    } else {
      MapUnchanged(s, step);
    }
  }

  lemma MapUnchanged(s: State, step: Step)
    requires Enabled(s, step) && !step.MarkInUse? && !step.MarkAvailable? && !step.ShrinkRemove? && !step.Create?
    ensures Exec(s, step).conns == s.conns
  {
  }

  lemma QueueSizes(s: State, step: Step)
    requires Enabled(s, step)
    ensures |Exec(s, step).queue| == |s.queue| + QueueGain(step)
  {
  }

  lemma HeldSizes(s: State, step: Step)
    requires Enabled(s, step) && MoverOk(s, s.threads[step.t])
    ensures |Exec(s, step).held| == |s.held| + HeldGain(s, step)
  {
    var pc := s.threads[step.t];
    if step.GiveBack? {
      SizeAfterRemoval(s.held, step.id);
    } else if step.Count? && pc.MarkedOnce? {
      SizeAfterPut(s.held, pc.id, step.t);
    } else {
      HeldUnchanged(s, step);
    }
  }

  lemma HeldUnchanged(s: State, step: Step)
    requires Enabled(s, step) && !step.GiveBack? && !(step.Count? && s.threads[step.t].MarkedOnce?)
    ensures Exec(s, step).held == s.held
  {
  }

  lemma LostSizes(s: State, step: Step)
    requires Enabled(s, step) && MoverOk(s, s.threads[step.t])
    ensures |Exec(s, step).lost| == |s.lost| + LostGain(step)
  {
    if step.ShrinkRemove? {
    } else {
      assert Exec(s, step).lost == s.lost;
    }
  }

  // How a step changes the counters.

  ghost function TotalGain(s: State, step: Step): int
    requires Enabled(s, step)
  {
    if !step.Count? then 0 else if s.threads[step.t].Pushed? then 1 else if s.threads[step.t].Removed? then -1 else 0
  }

  ghost function AvailableGain(s: State, step: Step): int
    requires Enabled(s, step)
  {
    if !step.Count? then 0
    else
      match s.threads[step.t]
      case Marked(_) => -1
      case Returned => 1
      case RemovedOnce => -1
      case PushedOnce => 1
      case _ => 0
  }

  ghost function ActiveGain(s: State, step: Step): int
    requires Enabled(s, step)
  {
    if !step.Count? then 0
    else if s.threads[step.t].MarkedOnce? then 1
    else if s.threads[step.t].ReturnedOnce? then -1
    else 0
  }

  lemma CounterSteps(s: State, step: Step)
    requires Enabled(s, step) && s.total < WORD && s.available < WORD && s.active < WORD
    ensures var s' := Exec(s, step);
      && s'.total == (s.total + TotalGain(s, step)) % WORD
      && s'.available == (s.available + AvailableGain(s, step)) % WORD
      && s'.active == (s.active + ActiveGain(s, step)) % WORD
  {
    if step.Count? {
      CountSteps(s, step.t);
    } else {
      CountersUnchanged(s, step);
    }
  }

  lemma CountSteps(s: State, t: nat)
    requires Enabled(s, Count(t)) && s.total < WORD && s.available < WORD && s.active < WORD
    ensures var s' := Counted(s, t);
      && s'.total == (s.total + TotalGain(s, Count(t))) % WORD
      && s'.available == (s.available + AvailableGain(s, Count(t))) % WORD
      && s'.active == (s.active + ActiveGain(s, Count(t))) % WORD
  {
    hide Exec;
    var pc := s.threads[t];
    if pc.Marked? || pc.MarkedOnce? {
    } else if pc.Returned? || pc.ReturnedOnce? {
    } else if pc.Removed? || pc.RemovedOnce? {
    } else {
    }
  }

  lemma CountersUnchanged(s: State, step: Step)
    requires Enabled(s, step) && !step.Count?
    ensures var s' := Exec(s, step); s'.total == s.total && s'.available == s.available && s'.active == s.active
  {
    if step.Read? || step.ReadBack? {
    } else {
    }
  }

  /** Where each step takes its thread. */
  ghost predicate Moves(step: Step, pc: Pc, pc': Pc) {
    match step
    case Pop(_) => pc.Idle? && pc'.Popped?
    case Read(_) => pc.Popped? && pc'.Copied?
    case MarkInUse(_, _) => pc.Copied? && pc'.Marked?
    case GiveBack(_, _) => pc.Idle? && pc'.GivenBack?
    case ReadBack(_) => pc.GivenBack? && pc'.BackCopied?
    case MarkAvailable(_, _) => pc.BackCopied? && pc'.Stored?
    case PushBack(_) => pc.Stored? && pc'.Returned?
    case ShrinkPop(_) => pc.Idle? && pc'.Shrinking?
    case ShrinkRemove(_, ok) => pc.Shrinking? && if ok then pc'.Removed? else pc'.Idle?
    case DrawId(_) => pc.Idle? && pc'.Drawn?
    case Create(_, ok) => pc.Drawn? && if ok then pc'.Created? else pc'.Idle?
    case PushNew(_) => pc.Created? && pc'.Pushed?
    case Count(_) =>
      match pc
      case Marked(_) => pc'.MarkedOnce?
      case Returned => pc'.ReturnedOnce?
      case Removed => pc'.RemovedOnce?
      case Pushed => pc'.PushedOnce?
      case _ => Counts(pc) && pc'.Idle?
  }

  lemma StepMoves(s: State, step: Step)
    requires Enabled(s, step) && MoverOk(s, s.threads[step.t])
    ensures Moves(step, s.threads[step.t], Exec(s, step).threads[step.t])
  {
    if step.Count? {
    } else if step.Read? || step.ReadBack? {
    } else {
    }
  }

  // The sizes and the debts of a step add up to what it does to the counters.

  lemma TotalBalanced(s: State, step: Step)
    requires Enabled(s, step) && MoverOk(s, s.threads[step.t])
    ensures var pc, pc' := s.threads[step.t], Exec(s, step).threads[step.t];
      MapGain(step) - OwesTotalUp(pc') + OwesTotalUp(pc) + OwesTotalDown(pc') - OwesTotalDown(pc) == TotalGain(s, step)
  {
    hide Exec, Enabled, MoverOk;
    StepMoves(s, step);
  }

  lemma AvailableBalanced(s: State, step: Step)
    requires Enabled(s, step) && MoverOk(s, s.threads[step.t])
    ensures var pc, pc' := s.threads[step.t], Exec(s, step).threads[step.t];
      QueueGain(step) + LostGain(step) - OwesAvailableUp(pc') + OwesAvailableUp(pc)
      + OwesAvailableDown(pc') - OwesAvailableDown(pc) == AvailableGain(s, step)
  {
    hide Exec, Enabled, MoverOk;
    StepMoves(s, step);
  }

  lemma ActiveBalanced(s: State, step: Step)
    requires Enabled(s, step) && MoverOk(s, s.threads[step.t])
    ensures var pc, pc' := s.threads[step.t], Exec(s, step).threads[step.t];
      HeldGain(s, step) + OwesActiveDown(pc') - OwesActiveDown(pc) == ActiveGain(s, step)
  {
    hide Exec, Enabled, MoverOk;
    StepMoves(s, step);
  }

  lemma PlacesBalanced(s: State, step: Step)
    requires Enabled(s, step) && MoverOk(s, s.threads[step.t])
    ensures var pc, pc' := s.threads[step.t], Exec(s, step).threads[step.t];
      MapGain(step) == QueueGain(step) + HeldGain(s, step) + LostGain(step) + WorksOne(pc') - WorksOne(pc)
  {
    hide Exec, Enabled, MoverOk;
    StepMoves(s, step);
  }

  lemma StepKeepsCounters(s: State, step: Step)
    requires Enabled(s, step) && MoverOk(s, s.threads[step.t]) && CountersOk(s) && Conserved(s)
    ensures CountersOk(Exec(s, step)) && Conserved(Exec(s, step))
  {
    hide Exec, Enabled, Sum, MoverOk, Works;
    hide QueueGain, MapGain, HeldGain, LostGain, TotalGain, AvailableGain, ActiveGain;
    hide OwesTotalUp, OwesTotalDown, OwesAvailableUp, OwesAvailableDown, OwesActiveDown, WorksOne;
    SumsStep(s, step);
    MapSizes(s, step);
    QueueSizes(s, step);
    HeldSizes(s, step);
    LostSizes(s, step);
    CounterSteps(s, step);
    TotalBalanced(s, step);
    AvailableBalanced(s, step);
    ActiveBalanced(s, step);
    PlacesBalanced(s, step);
    AddThenReduce(Total(s), TotalGain(s, step));
    AddThenReduce(Available(s), AvailableGain(s, step));
    AddThenReduce(Active(s), ActiveGain(s, step));
  }

  // ---------- every run ----------

  ghost predicate CountedInv(s: State) {
    Inv(s) && CountersOk(s) && Conserved(s)
  }

  lemma InitHasInv(s: State)
    requires Init(s)
    ensures CountedInv(s)
  {
    hide Inv, Sum;
    PoolOwnership.InitHasInv(s);
    SumZero(OwesTotalUp, s.threads);
    SumZero(OwesTotalDown, s.threads);
    SumZero(OwesAvailableUp, s.threads);
    SumZero(OwesAvailableDown, s.threads);
    SumZero(OwesActiveDown, s.threads);
    SumZero(WorksOne, s.threads);
  }

  /**
  In every state of every run each counter is the size it stands for, corrected by the updates that operations
  in progress still owe, modulo the word; and no connection of the map is unaccounted for.
  */
  lemma CountersCorrected(run: seq<State>, n: nat)
    requires PoolRun(run) && n < |run|
    ensures CountersOk(run[n]) && Conserved(run[n])
  {
    hide Inv, CountersOk, Conserved, Exec, Enabled, Init;
    forall s | Init(s)
      ensures CountedInv(s)
    {
      InitHasInv(s);
    }
    forall s, s' | CountedInv(s) && Next(s, s')
      ensures CountedInv(s')
    {
      var step :| Enabled(s, step) && s' == Exec(s, step);
      StepKeepsInv(s, step);
      MoverIsOkAt(s, step);
      StepKeepsCounters(s, step);
    }
    InvariantOfRun(Init, Next, CountedInv, run);
  }

  lemma MoverIsOkAt(s: State, step: Step)
    requires Inv(s) && Enabled(s, step)
    ensures step.t < |s.threads| && MoverOk(s, s.threads[step.t])
  {
    MoverIsOk(s, step.t);
  }

  /**
  When no operation is in progress, `total` is the size of the map, `active` the number of connections with
  clients, and the two differ by `available`: the queue's length, and with it the connections that a shrink
  took from the queue without being able to remove them.
  */
  lemma CountersAtRest(run: seq<State>, n: nat)
    requires PoolRun(run) && n < |run| && |run[n].conns| < WORD
    requires forall t :: 0 <= t < |run[n].threads| ==> run[n].threads[t].Idle?
    ensures var s := run[n];
      && s.total == |s.conns| && s.active == |s.held| && s.available == |s.queue| + |s.lost|
      && s.total == s.available + s.active
  {
    var s := run[n];
    CountersCorrected(run, n);
    SumZero(OwesTotalUp, s.threads);
    SumZero(OwesTotalDown, s.threads);
    SumZero(OwesAvailableUp, s.threads);
    SumZero(OwesAvailableDown, s.threads);
    SumZero(OwesActiveDown, s.threads);
    SumZero(WorksOne, s.threads);
  }
}
