/**
The size of the connection pool in every run. Expanding and shrinking need the pool's handle to themselves, so they
begin when no get or return is in progress, and none happens before they end; between them, gets and returns
interleave freely. Thread 0 also manages the pool, in the steps of `PoolOwnership`, as often as the decisions of
`PoolHysteresis` on the counters say. A map write may give up: an expansion then goes on with its next round, a
shrink loses the connection, and a pool whose initialisation meets it is never handed out.
*/
module PoolBounds {
  import opened Counting
  import opened PoolCounters
  import opened PoolHysteresis
  import opened PoolOwnership
  import opened Prelude
  import opened Runs
  import opened Words

  /** What the manager is doing, and how many rounds of its loop are left. */
  datatype Phase = Starting(left: nat) | Open | Growing(left: nat) | Reducing(left: nat)

  /**
  `from` and `idle`, the total and the available connections when the manager last decided, and whether that was
  `forced`, `goal`, the size it decided on, `missed` and `dry`, the rounds since then whose map write gave up and those
  that found the queue empty, and `grown`, the expansions so far, only observe the run.
  */
  datatype ManagedPool = ManagedPool(
    pool: State,
    phase: Phase,
    strategy: Strategy,
    initialSize: nat,
    maxSize: nat,
    from: nat,
    idle: nat,
    forced: bool,
    goal: int,
    missed: nat,
    dry: nat,
    grown: nat)

  datatype Move =
    | Client(step: Step)
    | Round(step: Step)
    | NothingToRemove
    | Grow(forced: bool)
    | Reduce
    | Finish

  ghost predicate AllIdle(s: State) {
    forall t :: 0 <= t < |s.threads| ==> s.threads[t].Idle?
  }

  ghost predicate ManagedInit(m: ManagedPool) {
    && Init(m.pool) && m.pool.threads != [] && m.phase == Starting(m.initialSize)
    && Sane(m.strategy) && m.initialSize < WORD && m.maxSize < WORD
  }

  predicate ClientStep(step: Step) {
    || step.Pop? || step.Read? || step.MarkInUse? || step.GiveBack? || step.ReadBack? || step.MarkAvailable?
    || step.PushBack? || step.Count?
  }

  predicate RoundStep(phase: Phase, step: Step) {
    match phase
    case Starting(left) => (step.DrawId? && left > 0) || (step.Create? && step.ok) || step.PushNew? || step.Count?
    case Growing(left) => (step.DrawId? && left > 0) || step.Create? || step.PushNew? || step.Count?
    case Reducing(left) => (step.ShrinkPop? && left > 0) || step.ShrinkRemove? || step.Count?
    case Open => false
  }

  /** A pool on which expanding and shrinking can be decided; that its counters are in order is proved below. */
  ghost predicate Decidable(m: ManagedPool) {
    m.phase.Open? && AllIdle(m.pool) && Sane(m.strategy) && m.pool.available <= m.pool.total
  }

  ghost function GrowDecision(m: ManagedPool, forced: bool): Expansion
    requires Decidable(m)
  {
    var strategy := if forced then m.strategy.(expandAt := 0.0) else m.strategy;
    assert CurrentFactor(strategy) == CurrentFactor(m.strategy);
    Expand(m.pool.total, m.pool.available, m.maxSize, strategy)
  }

  ghost function ReduceDecision(m: ManagedPool): Option<nat>
    requires Decidable(m)
  {
    Shrink(m.pool.total, m.pool.available, m.initialSize, m.strategy)
  }

  ghost predicate CanMove(m: ManagedPool, move: Move) {
    match move
    case Client(step) => m.phase.Open? && ClientStep(step) && Enabled(m.pool, step)
    case Round(step) => step.t == 0 && RoundStep(m.phase, step) && Enabled(m.pool, step)
    case NothingToRemove =>
      m.phase.Reducing? && m.phase.left > 0 && m.pool.queue == [] && m.pool.threads != [] && m.pool.threads[0].Idle?
    case Grow(forced) => Decidable(m) && GrowDecision(m, forced).GrowTo?
    case Reduce => Decidable(m) && ReduceDecision(m).Some?
    case Finish => !m.phase.Open? && m.phase.left == 0 && m.pool.threads != [] && m.pool.threads[0].Idle?
  }

  ghost function Moved(m: ManagedPool, move: Move): ManagedPool
    requires CanMove(m, move)
  {
    match move
    case Client(step) => m.(pool := Exec(m.pool, step))
    case Round(step) =>
      var missed := (step.Create? || step.ShrinkRemove?) && !step.ok;
      m.(pool := Exec(m.pool, step), phase := if step.DrawId? || step.ShrinkPop? then OneFewer(m.phase) else m.phase,
         missed := m.missed + if missed then 1 else 0)
    case NothingToRemove => m.(phase := OneFewer(m.phase), dry := m.dry + 1)
    case Grow(forced) =>
      var size := GrowDecision(m, forced).size;
      m.(phase := Growing(if size > m.pool.total then size - m.pool.total else 0),
         from := m.pool.total, idle := m.pool.available, forced := forced, goal := size, missed := 0, dry := 0)
    case Reduce =>
      var count := ReduceDecision(m).value;
      m.(phase := Reducing(count),
         from := m.pool.total, idle := m.pool.available, goal := m.pool.total - count, missed := 0, dry := 0)
    case Finish =>
      m.(phase := Open, strategy := if m.phase.Growing? then Advance(m.strategy) else m.strategy,
         grown := m.grown + if m.phase.Growing? then 1 else 0)
  }

  function OneFewer(phase: Phase): Phase
    requires !phase.Open? && phase.left > 0
  {
    phase.(left := phase.left - 1)
  }

  ghost predicate ManagedNext(m: ManagedPool, m': ManagedPool) {
    exists move :: CanMove(m, move) && m' == Moved(m, move)
  }

  ghost predicate ManagedRun(run: seq<ManagedPool>) {
    IsRun(ManagedInit, ManagedNext, run)
  }

  // ---------- the invariant ----------

  predicate ClientPc(pc: Pc) {
    || pc.Idle? || pc.Popped? || pc.Copied? || pc.Marked? || pc.MarkedOnce? || pc.GivenBack? || pc.BackCopied?
    || pc.Stored? || pc.Returned? || pc.ReturnedOnce?
  }

  /** A round whose connection `total` does not count yet, or still counts. */
  function Pending(pc: Pc): nat {
    if pc.Drawn? || pc.Created? || pc.Pushed? || pc.Shrinking? || pc.Removed? then 1 else 0
  }

  predicate RoundPc(phase: Phase, pc: Pc) {
    match phase
    case Reducing(_) => pc.Idle? || pc.Shrinking? || pc.Removed? || pc.RemovedOnce?
    case Open => ClientPc(pc)
    case _ => pc.Idle? || pc.Drawn? || pc.Created? || pc.Pushed? || pc.PushedOnce?
  }

  ghost predicate ThreadsOk(phase: Phase, threads: seq<Pc>) {
    && threads != []
    && RoundPc(phase, threads[0])
    && forall t :: 0 < t < |threads| ==> if phase.Open? then ClientPc(threads[t]) else threads[t].Idle?
  }

  function Cap(m: ManagedPool): nat {
    if m.initialSize < m.maxSize then m.maxSize else m.initialSize
  }

  /** What `total` will count when the rounds of the manager are over. */
  ghost predicate SizeOk(m: ManagedPool, size: int, pending: nat) {
    match m.phase
    case Starting(left) => size + left + pending == m.initialSize && size >= 0
    case Open => m.initialSize <= size <= Cap(m)
    case Growing(left) => m.initialSize <= size && size + left + pending + m.missed == m.goal <= Cap(m)
    case Reducing(left) => m.initialSize <= size - left - pending == m.goal + m.missed + m.dry && size <= Cap(m)
  }

  /** The size the manager goes for is the one that its decision names. */
  ghost predicate GoalOk(m: ManagedPool) {
    match m.phase
    case Growing(_) =>
      && m.goal >= 0 && Sane(m.strategy) && m.goal == Scaled(m.from, CurrentFactor(m.strategy)) && m.goal <= m.maxSize
      && m.idle <= m.from && (m.forced || Utilization(m.from, m.idle) >= m.strategy.expandAt)
    case Reducing(_) =>
      && (m.dry > 0 ==> m.pool.queue == [])
      && m.idle <= m.from && m.goal <= m.from
      && Shrink(m.from, m.idle, m.initialSize, m.strategy) == Some(m.from - m.goal)
    case _ => true
  }

  ghost predicate ManagedInv(m: ManagedPool) {
    && CountedInv(m.pool)
    && ThreadsOk(m.phase, m.pool.threads)
    && SizeOk(m, Total(m.pool), Pending(m.pool.threads[0]))
    && GoalOk(m)
    && Sane(m.strategy) && m.initialSize < WORD && m.maxSize < WORD
  }

  lemma PoolStep(s: State, step: Step)
    requires CountedInv(s) && Enabled(s, step)
    ensures CountedInv(Exec(s, step)) && Total(Exec(s, step)) == Total(s) + TotalGain(s, step)
  {
    hide Exec, Enabled, Inv, CountersOk, Conserved, MoverOk, Sum, MapGain, TotalGain;
    hide OwesTotalUp, OwesTotalDown;
    MoverIsOkAt(s, step);
    StepKeepsInv(s, step);
    StepKeepsCounters(s, step);
    SumsStep(s, step);
    MapSizes(s, step);
    TotalBalanced(s, step);
  }

  /** Only the manager owes `total` an update. */
  lemma OnlyManagerOwes(phase: Phase, threads: seq<Pc>)
    requires ThreadsOk(phase, threads)
    ensures Sum(OwesTotalUp, threads) == OwesTotalUp(threads[0])
    ensures Sum(OwesTotalDown, threads) == OwesTotalDown(threads[0])
  {
    SumZero(OwesTotalUp, threads[1..]);
    SumZero(OwesTotalDown, threads[1..]);
  }

  lemma NothingOwed(s: State)
    requires AllIdle(s)
    ensures Total(s) == |s.conns| && Available(s) == |s.queue| + |s.lost|
    ensures Conserved(s) ==> |s.conns| == |s.queue| + |s.held| + |s.lost|
  {
    SumZero(OwesTotalUp, s.threads);
    SumZero(OwesTotalDown, s.threads);
    SumZero(OwesAvailableUp, s.threads);
    SumZero(OwesAvailableDown, s.threads);
    SumZero(WorksOne, s.threads);
  }

  /** The counter of connections does not wrap and the map differs from it by the round in progress. */
  lemma TotalIsRight(m: ManagedPool)
    requires ManagedInv(m)
    ensures m.pool.total == Total(m.pool)
    ensures var pc := m.pool.threads[0];
      |m.pool.conns| == m.pool.total + OwesTotalUp(pc) - OwesTotalDown(pc)
  {
    hide Inv, Conserved, Sum, OwesTotalUp, OwesTotalDown, Pending, RoundPc;
    OnlyManagerOwes(m.phase, m.pool.threads);
    assert 0 <= Total(m.pool) <= Cap(m);
  }

  // ---------- each move keeps it ----------

  lemma ClientStaysClient(s: State, step: Step)
    requires Enabled(s, step) && MoverOk(s, s.threads[step.t]) && ClientStep(step) && ClientPc(s.threads[step.t])
    ensures ClientPc(Exec(s, step).threads[step.t])
    ensures TotalGain(s, step) == 0
  {
    hide Exec;
    StepMoves(s, step);
  }

  lemma RoundStaysRound(m: ManagedPool, step: Step)
    requires Enabled(m.pool, step) && MoverOk(m.pool, m.pool.threads[step.t])
    requires RoundStep(m.phase, step) && RoundPc(m.phase, m.pool.threads[step.t])
    requires SizeOk(m, Total(m.pool), Pending(m.pool.threads[step.t]))
    ensures CanMove(m, Round(step)) || step.t != 0
    ensures step.t == 0 ==>
              var m' := Moved(m, Round(step));
              && RoundPc(m'.phase, Exec(m.pool, step).threads[0])
              && SizeOk(m', Total(m.pool) + TotalGain(m.pool, step), Pending(Exec(m.pool, step).threads[0]))
  {
    hide Exec, Total;
    StepMoves(m.pool, step);
    if m.phase.Reducing? {
    } else if m.phase.Growing? {
    } else {
    }
  }

  lemma ClientKeepsInv(m: ManagedPool, step: Step)
    requires ManagedInv(m) && CanMove(m, Client(step))
    ensures ManagedInv(Moved(m, Client(step)))
  {
    hide Exec, Enabled, CountedInv, Total, MoverOk, TotalGain, ClientPc, ClientStep;
    PoolMoverIsOk(m.pool, step);
    PoolStep(m.pool, step);
    OnlyMoverMoves(m.pool, step);
    assert ClientPc(m.pool.threads[step.t]);
    ClientStaysClient(m.pool, step);
  }

  lemma PoolMoverIsOk(s: State, step: Step)
    requires CountedInv(s) && Enabled(s, step)
    ensures step.t < |s.threads| && MoverOk(s, s.threads[step.t])
  {
    MoverIsOkAt(s, step);
  }

  lemma RoundKeepsInv(m: ManagedPool, step: Step)
    requires ManagedInv(m) && CanMove(m, Round(step))
    ensures ManagedInv(Moved(m, Round(step)))
  {
    hide Exec, Enabled, CountedInv, Total, MoverOk, TotalGain, RoundPc, Pending, SizeOk;
    PoolMoverIsOk(m.pool, step);
    PoolStep(m.pool, step);
    OnlyMoverMoves(m.pool, step);
    RoundStaysRound(m, step);
    QueueSizes(m.pool, step);
  }

  /** Where the pool can be decided on, its counters are exact. */
  lemma IdlePoolIsDecidable(m: ManagedPool)
    requires ManagedInv(m) && m.phase.Open? && AllIdle(m.pool)
    ensures Decidable(m)
    ensures m.pool.total == |m.pool.conns| && m.pool.available == |m.pool.queue| + |m.pool.lost|
  {
    hide Inv, Sum;
    TotalIsRight(m);
    NothingOwed(m.pool);
  }

  lemma GrowKeepsInv(m: ManagedPool, forced: bool)
    requires ManagedInv(m) && CanMove(m, Grow(forced))
    ensures ManagedInv(Moved(m, Grow(forced)))
    ensures GrowDecision(m, forced).size >= m.pool.total
  {
    hide CountedInv, Total, Utilization, Scaled;
    TotalIsRight(m);
    GrownIsLarger(m.pool.total, CurrentFactor(m.strategy));
  }

  lemma ReduceKeepsInv(m: ManagedPool)
    requires ManagedInv(m) && CanMove(m, Reduce)
    ensures ManagedInv(Moved(m, Reduce))
  {
    hide CountedInv, Total, Utilization, Scaled;
    TotalIsRight(m);
  }

  lemma MoveKeepsInv(m: ManagedPool, move: Move)
    requires ManagedInv(m) && CanMove(m, move)
    ensures ManagedInv(Moved(m, move))
  {
    match move
    case Client(step) => ClientKeepsInv(m, step);
    case Round(step) => RoundKeepsInv(m, step);
    case Grow(forced) => GrowKeepsInv(m, forced);
    case Reduce => ReduceKeepsInv(m);
    case _ => LoopKeepsInv(m, move);
  }

  lemma LoopKeepsInv(m: ManagedPool, move: Move)
    requires ManagedInv(m) && CanMove(m, move) && (move.NothingToRemove? || move.Finish?)
    ensures ManagedInv(Moved(m, move))
  {
    hide CountedInv, Total;
  }

  // ---------- every run ----------

  /**
  When the manager is at the end of an expansion, the pool has exactly the floor of the size it started from times the
  current factor, less the rounds whose map write gave up, and unless it was forced it was used up to the threshold; at
  the end of a shrink, four fifths of that size or as much more as the minimum and the idle connections demand, and
  besides the rounds that removed nothing, some of which found nothing only if the queue is empty.
  */
  lemma ManagerReachesGoal(run: seq<ManagedPool>, n: nat)
    requires ManagedRun(run) && n < |run| && CanMove(run[n], Finish)
    ensures var m := run[n];
      var factor := if m.strategy.index < |m.strategy.factors| then m.strategy.factors[m.strategy.index]
                    else if m.strategy.factors != [] then m.strategy.factors[|m.strategy.factors| - 1] else 1.0;
      match m.phase
      case Starting(_) => m.pool.total == m.initialSize
      case Growing(_) =>
        && m.pool.total + m.missed <= m.maxSize
        && (m.forced || m.from == 0 || (m.from - m.idle) as real >= m.strategy.expandAt * m.from as real)
        && (m.pool.total + m.missed) as real <= m.from as real * factor < (m.pool.total + m.missed) as real + 1.0
      case Reducing(_) =>
        var goal := m.pool.total - m.missed - m.dry;
        && (m.dry > 0 ==> m.pool.queue == [])
        && m.initialSize <= goal <= m.from
        && (m.idle > 0 ==> goal < m.from)
        && (m.from - goal == m.idle || goal == m.initialSize || 5 * goal <= 4 * m.from < 5 * goal + 5)
        && m.from - goal <= m.idle && (m.from - goal < m.idle ==> 4 * m.from < 5 * goal + 5)
      case Open => false
  {
    hide CountedInv, Init, CanMove, Moved, Scaled, Shrink, SizeOk;
    InvOfManagedRun(run, n);
    TotalIsRight(run[n]);
    AtTheEnd(run[n]);
    if run[n].phase.Reducing? {
      ShrinkIs(run[n]);
    } else if run[n].phase.Growing? && run[n].from > 0 {
      AtLeastThreshold(run[n].from, run[n].idle, run[n].strategy.expandAt);
    }
  }

  /** The factors are used in turn, one for each expansion. */
  lemma OneFactorPerExpansion(run: seq<ManagedPool>, n: nat)
    requires ManagedRun(run) && n < |run| && run[0].grown == 0
    ensures run[n].strategy == AfterExpansions(run[0].strategy, run[n].grown)
  {
    hide CanMove, Init;
    var init := (m: ManagedPool) => ManagedInit(m) && m == run[0];
    var inv := (m: ManagedPool) => m.strategy == AfterExpansions(run[0].strategy, m.grown);
    forall m, m' | inv(m) && ManagedNext(m, m')
      ensures inv(m')
    {
      var move :| CanMove(m, move) && m' == Moved(m, move);
    }
    InvariantOfRun(init, ManagedNext, inv, run);
    assert inv(run[n]);
  }

  /** A manager that is not done can go on: with its round, with the next one, or to the end. */
  lemma ManagerCanGoOn(run: seq<ManagedPool>, n: nat)
    requires ManagedRun(run) && n < |run| && !run[n].phase.Open?
    ensures exists move: Move :: !move.Client? && CanMove(run[n], move)
  {
    hide CountedInv, Init;
    InvOfManagedRun(run, n);
    var m := run[n];
    var pc := m.pool.threads[0];
    if pc.Drawn? {
      assert CanMove(m, Round(Create(0, true)));
    } else if pc.Created? {
      assert CanMove(m, Round(PushNew(0)));
    } else if pc.Shrinking? {
      assert CanMove(m, Round(ShrinkRemove(0, true)));
    } else if Counts(pc) {
      assert CanMove(m, Round(Count(0)));
    } else if m.phase.left == 0 {
      assert CanMove(m, Finish);
    } else if !m.phase.Reducing? {
      assert CanMove(m, Round(DrawId(0)));
    } else if m.pool.queue == [] {
      assert CanMove(m, NothingToRemove);
    } else {
      assert CanMove(m, Round(ShrinkPop(0)));
    }
  }

  lemma AtTheEnd(m: ManagedPool)
    requires CanMove(m, Finish) && SizeOk(m, Total(m.pool), Pending(m.pool.threads[0]))
    ensures match m.phase
            case Starting(_) => Total(m.pool) == m.initialSize
            case Growing(_) => Total(m.pool) + m.missed == m.goal
            case Reducing(_) => Total(m.pool) - m.missed - m.dry == m.goal
            case Open => false
    ensures m.phase.Reducing? ==> m.initialSize <= Total(m.pool)
  {
    hide Total;
  }

  lemma ShrinkIs(m: ManagedPool)
    requires m.phase.Reducing? && GoalOk(m)
    ensures m.initialSize <= m.goal <= m.from && (m.idle > 0 ==> m.goal < m.from)
    ensures m.from - m.goal == m.idle || m.goal == m.initialSize || 5 * m.goal <= 4 * m.from < 5 * m.goal + 5
    ensures m.from - m.goal <= m.idle && (m.from - m.goal < m.idle ==> 4 * m.from < 5 * m.goal + 5)
  {
    if Utilization(m.from, m.idle) > m.strategy.shrinkAt || m.from <= m.initialSize {
    } else {
      var size := ShrinkGoal(m.from, m.idle, m.initialSize, m.strategy);
    }
  }

  /**
  In every state of every run, once the pool has been initialised, the map and the counter of connections stay
  between the initial and the larger of the two sizes; and whenever no operation is in progress, the counters are
  exact, so that a decision to expand or to shrink never subtracts more than there is.
  */
  lemma SizeStaysWithinBounds(run: seq<ManagedPool>, n: nat)
    requires ManagedRun(run) && n < |run| && !run[n].phase.Starting?
    ensures var m := run[n];
      && m.initialSize == run[0].initialSize && m.maxSize == run[0].maxSize
      && m.initialSize <= m.pool.total <= Cap(m)
      && m.initialSize <= |m.pool.conns| <= Cap(m)
      && (m.phase.Open? && AllIdle(m.pool) ==>
            Decidable(m) && m.pool.total == |m.pool.conns| && m.pool.available == |m.pool.queue| + |m.pool.lost|)
  {
    hide CountedInv, Init, CanMove, Moved;
    InvOfManagedRun(run, n);
    TotalIsRight(run[n]);
    if run[n].phase.Open? && AllIdle(run[n].pool) {
      IdlePoolIsDecidable(run[n]);
    }
  }

  lemma InvOfManagedRun(run: seq<ManagedPool>, n: nat)
    requires ManagedRun(run) && n < |run|
    ensures ManagedInv(run[n]) && run[n].initialSize == run[0].initialSize && run[n].maxSize == run[0].maxSize
  {
    hide CountedInv, Init, CanMove, Moved;
    var init := (m: ManagedPool) => ManagedInit(m) && m == run[0];
    var inv := (m: ManagedPool) =>
      ManagedInv(m) && m.initialSize == run[0].initialSize && m.maxSize == run[0].maxSize;
    InitHasManagedInv(run[0]);
    forall m, m' | inv(m) && ManagedNext(m, m')
      ensures inv(m')
    {
      var move :| CanMove(m, move) && m' == Moved(m, move);
      MoveKeepsInv(m, move);
      SizesStay(m, move);
    }
    InvariantOfRun(init, ManagedNext, inv, run);
    assert inv(run[n]);
  }

  lemma SizesStay(m: ManagedPool, move: Move)
    requires CanMove(m, move)
    ensures Moved(m, move).initialSize == m.initialSize && Moved(m, move).maxSize == m.maxSize
  {
  }

  lemma InitHasManagedInv(m: ManagedPool)
    requires ManagedInit(m)
    ensures ManagedInv(m)
  {
    hide CountedInv, Total;
    PoolCounters.InitHasInv(m.pool);
    NothingOwed(m.pool);
  }
}
