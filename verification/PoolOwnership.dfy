/**
Who owns a pooled connection. Clients get and return connections while the pool expands and shrinks, all
interleaved at each access to the queue or the map. A map write may give up (`ok` false), as the lock-free
map allows; a client returns only what it holds.
*/
module PoolOwnership {
  import opened Counting
  import opened Runs
  import opened Words

  datatype Connection = Connection(inUse: bool, useCount: nat)

  datatype Pc =
    | Idle
    // get_connection: popped; read from the map; marked in use; one of two counters updated
    | Popped(id: nat)
    | Copied(id: nat, copy: Connection)
    | Marked(id: nat)
    | MarkedOnce(id: nat)
    // return_connection: given back by the caller; read from the map; stored again; pushed; one counter updated
    | GivenBack(id: nat)
    | BackCopied(id: nat, copy: Connection)
    | Stored(id: nat)
    | Returned
    | ReturnedOnce
    // try_shrink: popped, to be removed; removed; one counter updated
    | Shrinking(id: nat)
    | Removed
    | RemovedOnce
    // smart_expand: id drawn; stored in the map, to be pushed; pushed; one counter updated
    | Drawn(id: nat)
    | Created(id: nat)
    | Pushed
    | PushedOnce

  /**
  `held` maps a connection to the client that has it; `total`, `available` and `active` are the pool's counters;
  `lost` and `acquired` only observe the run.
  */
  datatype State = State(
    queue: seq<nat>,
    conns: map<nat, Connection>,
    threads: seq<Pc>,
    held: map<nat, nat>,
    nextId: nat,
    total: nat,
    available: nat,
    active: nat,
    lost: set<nat>,
    acquired: map<nat, nat>)

  datatype Step =
    | Pop(t: nat)
    | Read(t: nat)
    | MarkInUse(t: nat, ok: bool)
    | GiveBack(t: nat, id: nat)
    | ReadBack(t: nat)
    | MarkAvailable(t: nat, ok: bool)
    | PushBack(t: nat)
    | ShrinkPop(t: nat)
    | ShrinkRemove(t: nat, ok: bool)
    | DrawId(t: nat)
    | Create(t: nat, ok: bool)
    | PushNew(t: nat)
    | Count(t: nat)

  ghost predicate Init(s: State) {
    && s.queue == [] && s.conns == map[] && s.held == map[] && s.lost == {} && s.acquired == map[]
    && s.total == s.available == s.active == 0
    && forall t :: 0 <= t < |s.threads| ==> s.threads[t].Idle?
  }

  ghost predicate Enabled(s: State, step: Step) {
    && step.t < |s.threads|
    && var pc := s.threads[step.t];
       match step
       case Pop(_) => pc.Idle? && s.queue != []
       case Read(_) => pc.Popped?
       case MarkInUse(_, _) => pc.Copied?
       case GiveBack(t, id) => pc.Idle? && id in s.held && s.held[id] == t
       case ReadBack(_) => pc.GivenBack?
       case MarkAvailable(_, _) => pc.BackCopied?
       case PushBack(_) => pc.Stored?
       case ShrinkPop(_) => pc.Idle? && s.queue != []
       case ShrinkRemove(_, _) => pc.Shrinking?
       case DrawId(_) => pc.Idle?
       case Create(_, _) => pc.Drawn?
       case PushNew(_) => pc.Created?
       case Count(_) => Counts(pc)
  }

  /** A call that has moved its connection and has counters left to update. */
  predicate Counts(pc: Pc) {
    || pc.Marked? || pc.MarkedOnce? || pc.Returned? || pc.ReturnedOnce?
    || pc.Removed? || pc.RemovedOnce? || pc.Pushed? || pc.PushedOnce?
  }

  function Up(counter: nat): nat {
    (counter + 1) % WORD
  }

  function Down(counter: nat): nat {
    (counter - 1) % WORD
  }

  ghost function Acquired(s: State, id: nat): nat {
    if id in s.acquired then s.acquired[id] else 0
  }

  ghost function Exec(s: State, step: Step): State
    requires Enabled(s, step)
  {
    var t := step.t;
    var pc := s.threads[t];
    match step
    case Pop(_) => s.(threads := s.threads[t := Popped(s.queue[0])], queue := s.queue[1..])
    case Read(_) =>
      s.(threads := s.threads[t := if pc.id in s.conns then Copied(pc.id, s.conns[pc.id]) else Idle])
    case MarkInUse(_, ok) =>
      var taken := s.(threads := s.threads[t := Marked(pc.id)]);
      if ok then
        taken.(conns := s.conns[pc.id := Connection(true, pc.copy.useCount + 1)],
               acquired := s.acquired[pc.id := Acquired(s, pc.id) + 1])
      else taken
    case GiveBack(_, id) => s.(threads := s.threads[t := GivenBack(id)], held := s.held - {id})
    case ReadBack(_) =>
      s.(threads := s.threads[t := if pc.id in s.conns then BackCopied(pc.id, s.conns[pc.id]) else Idle])
    case MarkAvailable(_, ok) =>
      s.(threads := s.threads[t := Stored(pc.id)],
         conns := if ok then s.conns[pc.id := Connection(false, pc.copy.useCount)] else s.conns)
    case PushBack(_) => s.(threads := s.threads[t := Returned], queue := s.queue + [pc.id])
    case ShrinkPop(_) => s.(threads := s.threads[t := Shrinking(s.queue[0])], queue := s.queue[1..])
    case ShrinkRemove(_, ok) =>
      if ok then s.(threads := s.threads[t := Removed], conns := s.conns - {pc.id})
      else s.(threads := s.threads[t := Idle], lost := s.lost + {pc.id})
    case DrawId(_) => s.(threads := s.threads[t := Drawn(s.nextId)], nextId := s.nextId + 1)
    case Create(_, ok) =>
      if ok then
        s.(threads := s.threads[t := Created(pc.id)], conns := s.conns[pc.id := Connection(false, 0)])
      else s.(threads := s.threads[t := Idle])
    case PushNew(_) => s.(threads := s.threads[t := Pushed], queue := s.queue + [pc.id])
    case Count(_) => Counted(s, t)
  }

  /** The counter updates that end an operation, in the order of the code. */
  ghost function Counted(s: State, t: nat): State
    requires t < |s.threads| && Counts(s.threads[t])
  {
    match s.threads[t]
    case Marked(id) => s.(available := Down(s.available), threads := s.threads[t := MarkedOnce(id)])
    case MarkedOnce(id) => s.(active := Up(s.active), held := s.held[id := t], threads := s.threads[t := Idle])
    case Returned => s.(available := Up(s.available), threads := s.threads[t := ReturnedOnce])
    case ReturnedOnce => s.(active := Down(s.active), threads := s.threads[t := Idle])
    case Removed => s.(total := Down(s.total), threads := s.threads[t := RemovedOnce])
    case RemovedOnce => s.(available := Down(s.available), threads := s.threads[t := Idle])
    case Pushed => s.(total := Up(s.total), threads := s.threads[t := PushedOnce])
    case PushedOnce => s.(available := Up(s.available), threads := s.threads[t := Idle])
  }

  ghost predicate Next(s: State, s': State) {
    exists step :: Enabled(s, step) && s' == Exec(s, step)
  }

  // ---------- places ----------

  /** An operation in the middle of which a connection is in no other place. */
  ghost predicate Works(pc: Pc) {
    || pc.Popped? || pc.Copied? || pc.Marked? || pc.MarkedOnce?
    || pc.GivenBack? || pc.BackCopied? || pc.Stored? || pc.Shrinking? || pc.Created?
  }

  ghost predicate Owns(pc: Pc, id: nat) {
    Works(pc) && pc.id == id
  }

  ghost function OwnsOne(id: nat): Pc -> nat {
    (pc: Pc) => if Owns(pc, id) then 1 else 0
  }

  /** In how many places a connection is: the queue, a client's hands, an operation in progress, lost. */
  ghost function Places(s: State, id: nat): nat {
    multiset(s.queue)[id]
    + (if id in s.held then 1 else 0)
    + (if id in s.lost then 1 else 0)
    + Sum(OwnsOne(id), s.threads)
  }

  ghost predicate PlaceOk(s: State, id: nat) {
    Places(s, id) == if id in s.conns then 1 else 0
  }

  ghost predicate PcOk(s: State, pc: Pc) {
    match pc
    case Copied(id, copy) => id in s.conns && copy == s.conns[id]
    case BackCopied(id, copy) => id in s.conns && copy == s.conns[id]
    case Drawn(id) => id < s.nextId && id !in s.conns && id !in s.acquired
    case _ => true
  }

  ghost predicate Inv(s: State) {
    && (forall id :: PlaceOk(s, id))
    && (forall id :: id in s.conns ==> id < s.nextId && s.conns[id].useCount == Acquired(s, id))
    && (forall id :: id in s.acquired ==> id < s.nextId)
    && (forall t :: 0 <= t < |s.threads| ==> PcOk(s, s.threads[t]))
    && (forall t, u :: 0 <= t < u < |s.threads| && s.threads[t].Drawn? && s.threads[u].Drawn? ==>
          s.threads[t].id != s.threads[u].id)
  }

  /** A step moves only its own thread, so only that thread's weight changes. */
  lemma OwnersStep(s: State, step: Step, id: nat)
    requires Enabled(s, step)
    ensures Sum(OwnsOne(id), Exec(s, step).threads) + OwnsOne(id)(s.threads[step.t])
         == Sum(OwnsOne(id), s.threads) + OwnsOne(id)(Exec(s, step).threads[step.t])
    ensures OwnsOne(id)(s.threads[step.t]) <= Sum(OwnsOne(id), s.threads)
  {
    SumUpdate(OwnsOne(id), s.threads, step.t, Exec(s, step).threads[step.t]);
    SumAtLeast(OwnsOne(id), s.threads, step.t);
  }

  lemma PopCounts(queue: seq<nat>, id: nat)
    requires queue != []
    ensures multiset(queue)[id] == multiset(queue[1..])[id] + (if queue[0] == id then 1 else 0)
  {
    assert queue == [queue[0]] + queue[1..];
  }

  /** An operation's connection is in the map, and nobody else has it. */
  lemma OwnerIsAlone(s: State, t: nat, u: nat)
    requires t < |s.threads| && u < |s.threads| && t != u
    requires Works(s.threads[t]) && PlaceOk(s, s.threads[t].id)
    ensures s.threads[t].id in s.conns
    ensures !Owns(s.threads[u], s.threads[t].id)
  {
    var id := s.threads[t].id;
    SumAtLeast(OwnsOne(id), s.threads, t);
    SumUpdate(OwnsOne(id), s.threads, t, Idle);
    SumAtLeast(OwnsOne(id), s.threads[t := Idle], u);
  }

  lemma HeldIsAlone(s: State, id: nat)
    requires PlaceOk(s, id) && id in s.held
    ensures id in s.conns && id !in s.queue && id !in s.lost
    ensures forall t :: 0 <= t < |s.threads| ==> !Owns(s.threads[t], id)
  {
    forall t | 0 <= t < |s.threads|
      ensures !Owns(s.threads[t], id)
    {
      SumAtLeast(OwnsOne(id), s.threads, t);
    }
  }

  lemma OwnerInMap(s: State, t: nat)
    requires t < |s.threads| && Works(s.threads[t])
    requires PlaceOk(s, s.threads[t].id)
    ensures s.threads[t].id in s.conns
  {
    SumAtLeast(OwnsOne(s.threads[t].id), s.threads, t);
  }

  lemma PopKeepsPlace(s: State, step: Step, id: nat)
    requires Enabled(s, step) && PlaceOk(s, id)
    requires step.Pop? || step.ShrinkPop?
    ensures PlaceOk(Exec(s, step), id)
  {
    OwnersStep(s, step, id);
    PopCounts(s.queue, id);
  }

  lemma PushKeepsPlace(s: State, step: Step, id: nat)
    requires Enabled(s, step) && PlaceOk(s, id)
    requires step.PushBack? || step.PushNew?
    ensures PlaceOk(Exec(s, step), id)
  {
    OwnersStep(s, step, id);
  }

  lemma OtherKeepsPlace(s: State, step: Step, id: nat)
    requires Enabled(s, step) && PlaceOk(s, id)
    requires !step.Pop? && !step.ShrinkPop? && !step.PushBack? && !step.PushNew? && !step.Count?
    requires var pc := s.threads[step.t]; Works(pc) ==> pc.id in s.conns
    requires PcOk(s, s.threads[step.t])
    ensures PlaceOk(Exec(s, step), id)
  {
    OwnersStep(s, step, id);
    assert Exec(s, step).queue == s.queue;
  }

  lemma CountKeepsPlace(s: State, t: nat, id: nat)
    requires Enabled(s, Count(t)) && PlaceOk(s, id)
    ensures PlaceOk(Exec(s, Count(t)), id)
  {
    OwnersStep(s, Count(t), id);
  }

  lemma KeepsPlace(s: State, step: Step, id: nat)
    requires Enabled(s, step) && PlaceOk(s, id)
    requires var pc := s.threads[step.t]; Works(pc) ==> pc.id in s.conns
    requires PcOk(s, s.threads[step.t])
    ensures PlaceOk(Exec(s, step), id)
  {
    if step.Pop? || step.ShrinkPop? {
      PopKeepsPlace(s, step, id);
    } else if step.PushBack? || step.PushNew? {
      PushKeepsPlace(s, step, id);
    } else if step.Count? {
      CountKeepsPlace(s, step.t, id);
    } else {
      OtherKeepsPlace(s, step, id);
    }
  }

  /** A step leaves the thread of another operation fitting, because it writes only its own connection. */
  lemma OtherPcOk(s: State, step: Step, pc: Pc)
    requires Enabled(s, step) && PcOk(s, pc) && PcOk(s, s.threads[step.t])
    requires var mover := s.threads[step.t];
             Works(mover) ==> mover.id in s.conns && !Owns(pc, mover.id)
    requires var mover := s.threads[step.t]; mover.Drawn? && pc.Drawn? ==> mover.id != pc.id
    ensures PcOk(Exec(s, step), pc)
  {
  }

  lemma KeepsPcs(s: State, step: Step, u: nat)
    requires Inv(s) && Enabled(s, step) && u < |s.threads|
    ensures PcOk(Exec(s, step), Exec(s, step).threads[u])
  {
    var pc := s.threads[step.t];
    assert PcOk(s, pc) && PcOk(s, s.threads[u]);
    if u != step.t {
      assert Exec(s, step).threads[u] == s.threads[u];
      if Works(pc) {
        assert PlaceOk(s, pc.id);
        OwnerIsAlone(s, step.t, u);
      }
      OtherPcOk(s, step, s.threads[u]);
    } else {
      MoverPcOk(s, step);
    }
  }

  lemma MoverPcOk(s: State, step: Step)
    requires Enabled(s, step) && PcOk(s, s.threads[step.t])
    requires forall id :: id in s.conns || id in s.acquired ==> id < s.nextId
    ensures PcOk(Exec(s, step), Exec(s, step).threads[step.t])
  {
    if step.Read? || step.ReadBack? {
    } else if step.DrawId? {
    } else if step.Count? {
    } else {
    }
  }

  lemma StepKeepsInv(s: State, step: Step)
    requires Inv(s) && Enabled(s, step)
    ensures Inv(Exec(s, step))
  {
    var s' := Exec(s, step);
    var pc := s.threads[step.t];
    assert PcOk(s, pc);
    if Works(pc) {
      assert PlaceOk(s, pc.id);
      OwnerInMap(s, step.t);
    }
    forall id
      ensures PlaceOk(s', id)
    {
      assert PlaceOk(s, id);
      KeepsPlace(s, step, id);
    }
    forall u | 0 <= u < |s'.threads|
      ensures PcOk(s', s'.threads[u])
    {
      KeepsPcs(s, step, u);
    }
    KeepsCounts(s, step);
    KeepsDrawn(s, step);
  }

  lemma KeepsCounts(s: State, step: Step)
    requires Enabled(s, step) && PcOk(s, s.threads[step.t])
    requires Works(s.threads[step.t]) ==> s.threads[step.t].id in s.conns
    requires forall id :: id in s.acquired ==> id < s.nextId
    requires forall id :: id in s.conns ==> id < s.nextId && s.conns[id].useCount == Acquired(s, id)
    ensures forall id :: id in Exec(s, step).conns ==>
              id < Exec(s, step).nextId && Exec(s, step).conns[id].useCount == Acquired(Exec(s, step), id)
    ensures forall id :: id in Exec(s, step).acquired ==> id < Exec(s, step).nextId
  {
  }

  lemma KeepsDrawn(s: State, step: Step)
    requires Enabled(s, step)
    requires forall t :: 0 <= t < |s.threads| ==> PcOk(s, s.threads[t])
    requires forall t, u :: 0 <= t < u < |s.threads| && s.threads[t].Drawn? && s.threads[u].Drawn? ==>
               s.threads[t].id != s.threads[u].id
    ensures var s' := Exec(s, step);
            forall t, u :: 0 <= t < u < |s'.threads| && s'.threads[t].Drawn? && s'.threads[u].Drawn? ==>
              s'.threads[t].id != s'.threads[u].id
  {
    var s' := Exec(s, step);
    forall t | 0 <= t < |s.threads| && s.threads[t].Drawn?
      ensures s.threads[t].id < s.nextId
    {
      assert PcOk(s, s.threads[t]);
    }
  }

  // ---------- every run ----------

  ghost predicate PoolRun(run: seq<State>) {
    IsRun(Init, Next, run)
  }

  lemma InitHasInv(s: State)
    requires Init(s)
    ensures Inv(s)
  {
    forall id
      ensures PlaceOk(s, id)
    {
      SumZero(OwnsOne(id), s.threads);
    }
  }

  lemma InvOfRun(run: seq<State>)
    requires PoolRun(run)
    ensures forall n :: 0 <= n < |run| ==> Inv(run[n])
  {
    forall s | Init(s)
      ensures Inv(s)
    {
      InitHasInv(s);
    }
    forall s, s' | Inv(s) && Next(s, s')
      ensures Inv(s')
    {
      var step :| Enabled(s, step) && s' == Exec(s, step);
      StepKeepsInv(s, step);
    }
    InvariantOfRun(Init, Next, Inv, run);
  }

  /**
  Exclusive ownership. In every state of every run, a connection in the map is in exactly one place and
  any other id is nowhere; so an id that a client holds or an operation works on is not in the queue and
  not with anyone else, and neither `get` nor `return` ever misses its connection in the map.
  */
  lemma ExclusiveOwnership(run: seq<State>, n: nat)
    requires PoolRun(run) && n < |run|
    ensures forall id :: Places(run[n], id) == if id in run[n].conns then 1 else 0
    ensures forall id :: id in run[n].held ==>
              && id in run[n].conns && id !in run[n].queue && id !in run[n].lost
              && forall t :: 0 <= t < |run[n].threads| ==> !Owns(run[n].threads[t], id)
    ensures forall t, u | 0 <= t < |run[n].threads| && 0 <= u < |run[n].threads| && t != u ::
              Works(run[n].threads[t]) ==> !Owns(run[n].threads[u], run[n].threads[t].id)
    ensures forall t :: 0 <= t < |run[n].threads| && Works(run[n].threads[t]) ==>
              run[n].threads[t].id in run[n].conns
  {
    InvOfRun(run);
    var s := run[n];
    forall id
      ensures Places(s, id) == if id in s.conns then 1 else 0
    {
      assert PlaceOk(s, id);
    }
    forall id | id in s.held
      ensures id in s.conns && id !in s.queue && id !in s.lost
      ensures forall t :: 0 <= t < |s.threads| ==> !Owns(s.threads[t], id)
    {
      HeldIsAlone(s, id);
    }
    forall t | 0 <= t < |s.threads| && Works(s.threads[t])
      ensures s.threads[t].id in s.conns
    {
      OwnerInMap(s, t);
    }
    forall t, u | 0 <= t < |s.threads| && 0 <= u < |s.threads| && t != u && Works(s.threads[t])
      ensures !Owns(s.threads[u], s.threads[t].id)
    {
      OwnerIsAlone(s, t, u);
    }
  }

  /**
  No lost update. Reading a connection and writing it back are separate map operations, yet what an
  operation writes back is always based on the current entry; so each connection's use count is the
  number of acquisitions recorded for it.
  */
  lemma NoLostUpdate(run: seq<State>, n: nat)
    requires PoolRun(run) && n < |run|
    ensures forall t :: 0 <= t < |run[n].threads| && (run[n].threads[t].Copied? || run[n].threads[t].BackCopied?) ==>
              run[n].threads[t].id in run[n].conns && run[n].threads[t].copy == run[n].conns[run[n].threads[t].id]
    ensures forall id :: id in run[n].conns ==> run[n].conns[id].useCount == Acquired(run[n], id)
  {
    InvOfRun(run);
    forall t | 0 <= t < |run[n].threads|
      ensures PcOk(run[n], run[n].threads[t])
    {
    }
  }
}
