/**
The in-use flag of a pooled connection, which is written to the map apart from the handing over: in every run it says
whether a client has the connection, unless the last attempt to write it gave up.
*/
module PoolFlags {
  import opened Counting
  import opened PoolCounters
  import opened PoolOwnership
  import opened Runs

  /** A pool, and the connections whose last flag write gave up. */
  datatype FlaggedPool = FlaggedPool(pool: State, stale: set<nat>)

  ghost predicate FlaggedInit(p: FlaggedPool) {
    Init(p.pool) && p.stale == {}
  }

  ghost function Flagged(p: FlaggedPool, step: Step): FlaggedPool
    requires Enabled(p.pool, step)
  {
    var pc := p.pool.threads[step.t];
    FlaggedPool(
      Exec(p.pool, step),
      if step.MarkInUse? || step.MarkAvailable? then (if step.ok then p.stale - {pc.id} else p.stale + {pc.id})
      else p.stale)
  }

  ghost predicate FlaggedNext(p: FlaggedPool, p': FlaggedPool) {
    exists step :: Enabled(p.pool, step) && p' == Flagged(p, step)
  }

  /** An operation that hands a connection to a client or takes it back, between the two writes of the flag. */
  ghost predicate HandsOver(pc: Pc, id: nat) {
    (pc.Marked? || pc.MarkedOnce? || pc.GivenBack? || pc.BackCopied?) && pc.id == id
  }

  ghost function HandsOne(id: nat): Pc -> nat {
    (pc: Pc) => if HandsOver(pc, id) then 1 else 0
  }

  ghost function InHands(s: State, id: nat): nat {
    (if id in s.held then 1 else 0) + Sum(HandsOne(id), s.threads)
  }

  ghost predicate FlagOk(p: FlaggedPool, id: nat) {
    id in p.pool.conns && id !in p.stale ==> (p.pool.conns[id].inUse <==> InHands(p.pool, id) > 0)
  }

  lemma {:induction false} HandsAreOwned(id: nat, threads: seq<Pc>)
    ensures Sum(HandsOne(id), threads) <= Sum(OwnsOne(id), threads)
  {
    if threads != [] {
      HandsAreOwned(id, threads[1..]);
    }
  }

  lemma InFewHands(s: State, id: nat)
    requires PlaceOk(s, id)
    ensures InHands(s, id) <= if id in s.conns then 1 else 0
  {
    HandsAreOwned(id, s.threads);
  }

  /** How a step changes the number of hands a connection is in. */
  lemma HandsStep(s: State, step: Step, id: nat)
    requires Enabled(s, step) && MoverOk(s, s.threads[step.t])
    ensures var pc := s.threads[step.t];
      InHands(Exec(s, step), id)
      == InHands(s, id) + (if step.MarkInUse? && pc.id == id then 1 else 0)
                        - (if step.MarkAvailable? && pc.id == id then 1 else 0)
  {
    OnlyMoverMoves(s, step);
    SumUpdate(HandsOne(id), s.threads, step.t, Exec(s, step).threads[step.t]);
    MoverHands(s, step, id);
  }

  lemma MoverHands(s: State, step: Step, id: nat)
    requires Enabled(s, step) && MoverOk(s, s.threads[step.t])
    ensures var pc, pc', s' := s.threads[step.t], Exec(s, step).threads[step.t], Exec(s, step);
      HandsOne(id)(pc') + (if id in s'.held then 1 else 0) - HandsOne(id)(pc) - (if id in s.held then 1 else 0)
      == (if step.MarkInUse? && pc.id == id then 1 else 0) - (if step.MarkAvailable? && pc.id == id then 1 else 0)
  {
    if step.Count? {
    } else if step.Pop? || step.Read? || step.MarkInUse? || step.GiveBack? {
    } else if step.ReadBack? || step.MarkAvailable? || step.PushBack? {
    } else {
    }
  }

  /** How a step changes the flags. */
  lemma FlagStep(s: State, step: Step, id: nat)
    requires Enabled(s, step) && MoverOk(s, s.threads[step.t])
    ensures var s', pc := Exec(s, step), s.threads[step.t];
      id in s'.conns ==>
        if step.MarkInUse? && pc.id == id && step.ok then s'.conns[id].inUse
        else if step.MarkAvailable? && pc.id == id && step.ok then !s'.conns[id].inUse
        else if step.Create? && step.ok && pc.id == id then id !in s.conns && !s'.conns[id].inUse
        else id in s.conns && s'.conns[id] == s.conns[id]
  {
    if step.MarkInUse? || step.MarkAvailable? {
    } else if step.Create? || step.ShrinkRemove? {
    } else {
      MapUnchanged(s, step);
    }
  }

  lemma KeepsFlag(p: FlaggedPool, step: Step, id: nat)
    requires Enabled(p.pool, step) && MoverOk(p.pool, p.pool.threads[step.t])
    requires FlagOk(p, id) && PlaceOk(p.pool, id) && PlaceOk(Exec(p.pool, step), id)
    ensures FlagOk(Flagged(p, step), id)
  {
    hide Exec, PlaceOk, InHands;
    InFewHands(p.pool, id);
    InFewHands(Exec(p.pool, step), id);
    HandsStep(p.pool, step, id);
    FlagStep(p.pool, step, id);
  }

  ghost predicate FlaggedInv(p: FlaggedPool) {
    Inv(p.pool) && forall id :: FlagOk(p, id)
  }

  lemma KeepsFlaggedInv(p: FlaggedPool, step: Step)
    requires FlaggedInv(p) && Enabled(p.pool, step)
    ensures FlaggedInv(Flagged(p, step))
  {
    hide Exec, FlagOk, MoverOk;
    MoverIsOkAt(p.pool, step);
    StepKeepsInv(p.pool, step);
    forall id
      ensures FlagOk(Flagged(p, step), id)
    {
      assert PlaceOk(p.pool, id) && PlaceOk(Exec(p.pool, step), id) && FlagOk(p, id);
      KeepsFlag(p, step, id);
    }
  }

  /**
  In every run, a connection of the pool is marked as in use exactly while a client has it, or is about to get it or
  has just given it back, unless the last write of its mark gave up; in particular what is queued is marked available.
  */
  lemma FlagTellsUse(run: seq<FlaggedPool>, n: nat, id: nat)
    requires IsRun(FlaggedInit, FlaggedNext, run) && n < |run|
    requires id in run[n].pool.conns && id !in run[n].stale
    ensures var s := run[n].pool;
      && (s.conns[id].inUse <==>
            id in s.held || exists t :: 0 <= t < |s.threads| && HandsOver(s.threads[t], id))
      && (id in s.queue ==> !s.conns[id].inUse)
  {
    hide Inv, FlagOk, Exec, Enabled, Init;
    forall p | FlaggedInit(p)
      ensures FlaggedInv(p)
    {
      StartsFlagged(p);
    }
    forall p, p' | FlaggedInv(p) && FlaggedNext(p, p')
      ensures FlaggedInv(p')
    {
      var step :| Enabled(p.pool, step) && p' == Flagged(p, step);
      KeepsFlaggedInv(p, step);
    }
    InvariantOfRun(FlaggedInit, FlaggedNext, FlaggedInv, run);
    assert FlagOk(run[n], id);
    FlagMeans(run[n], id);
  }

  lemma FlagMeans(p: FlaggedPool, id: nat)
    requires Inv(p.pool) && FlagOk(p, id) && id in p.pool.conns && id !in p.stale
    ensures var s := p.pool;
      && (s.conns[id].inUse <==>
            id in s.held || exists t :: 0 <= t < |s.threads| && HandsOver(s.threads[t], id))
      && (id in s.queue ==> !s.conns[id].inUse)
  {
    var s := p.pool;
    assert PlaceOk(s, id);
    HandsAreOwned(id, s.threads);
    if t :| 0 <= t < |s.threads| && HandsOver(s.threads[t], id) {
      SumAtLeast(HandsOne(id), s.threads, t);
    } else {
      SumZero(HandsOne(id), s.threads);
    }
  }

  lemma StartsFlagged(p: FlaggedPool)
    requires FlaggedInit(p)
    ensures FlaggedInv(p)
  {
    PoolOwnership.InitHasInv(p.pool);
  }
}
