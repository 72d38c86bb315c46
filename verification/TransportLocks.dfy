/**
The locks of one transport: the session id, the connection adapter, and each connection. Calls keep their
guards exactly as long as the code does: a send holds the session guard, then the adapter guard, then the
connection guard until the connection has answered; a close holds the adapter and connection guards
while it closes, and takes the session and adapter locks one at a time to clean up.
*/
module TransportLocks {
  import opened Prelude
  import opened Counting
  import opened Runs

  datatype Call = Send | Close(sid: nat) | Connect(sid: nat) | ReadSession

  datatype Outcome =
    | Sent | SendFailed | NotConnected | NoAdapter
    | Closed | CloseSkipped
    | Listening | UnwrapPanic
    | Answered

  datatype Pc =
    | Unstarted(call: Call)
    // send: nothing held; session held; session and adapter held; all three held
    | SendSession
    | SendAdapter
    | SendConnection(conn: nat)
    | Sending(conn: nat)
    // close_session, force_close_session
    | Gate(sid: nat)
    | CloseAdapter(sid: nat)
    | CloseConnection(sid: nat, conn: nat)
    | Closing(sid: nat, conn: nat)
    | MarkClosed(sid: nat)
    | CompareSession(sid: nat)
    | ClearSession(sid: nat)
    | ClearAdapter(sid: nat)
    // set_connection, then the listener it spawns
    | SetAdapter(sid: nat)
    | SetSession(sid: nat)
    | OpenGate(sid: nat)
    | UnwrapAdapter(sid: nat)
    | Listen(conn: nat)
    // is_connected, current_session_id, on_event
    | LookAtSession
    | Finished(outcome: Outcome)

  datatype GateState = GateConnected | GateClosing | GateClosed

  datatype State = State(
    session: Option<nat>,
    adapter: Option<nat>,
    gates: map<nat, GateState>,
    sessionLock: Option<nat>,
    adapterLock: Option<nat>,
    connLocks: map<nat, nat>,
    nextConn: nat,
    threads: seq<Pc>)

  /**
  Thread `t` makes its next move; `ok` is what the connection answers, if it is asked, and whether the write
  that opens the gate goes through, since the lock-free map may give up and the code does not look.
  */
  datatype Step = Step(t: nat, ok: bool)

  ghost predicate IsClosing(pc: Pc) {
    pc.Gate? || pc.CloseAdapter? || pc.CloseConnection? || pc.Closing? || pc.MarkClosed?
    || pc.CompareSession? || pc.ClearSession? || pc.ClearAdapter?
  }

  ghost predicate IsConnecting(pc: Pc) {
    pc.SetAdapter? || pc.SetSession? || pc.OpenGate? || pc.UnwrapAdapter?
  }

  ghost predicate InFlight(pc: Pc) {
    !pc.Unstarted? && !pc.Finished?
  }

  ghost predicate AnyClosing(s: State) {
    exists t :: 0 <= t < |s.threads| && IsClosing(s.threads[t])
  }

  ghost predicate AnyConnecting(s: State) {
    exists t :: 0 <= t < |s.threads| && IsConnecting(s.threads[t])
  }

  ghost predicate Init(s: State) {
    && s.session == None && s.adapter == None && s.gates == map[]
    && s.sessionLock == None && s.adapterLock == None && s.connLocks == map[]
    && forall t :: 0 <= t < |s.threads| ==> s.threads[t].Unstarted?
  }

  /** With `apart`, a connect and a close are never in flight together. */
  ghost predicate MayStart(apart: bool, s: State, call: Call) {
    apart ==> match call
              case Connect(_) => !AnyClosing(s)
              case Close(_) => !AnyConnecting(s)
              case _ => true
  }

  ghost predicate Enabled(apart: bool, s: State, step: Step) {
    && step.t < |s.threads|
    && match s.threads[step.t]
       case Unstarted(call) => MayStart(apart, s, call)
       case SendSession => s.sessionLock == None
       case SendAdapter => s.adapterLock == None
       case SendConnection(conn) => conn !in s.connLocks
       case Sending(_) => true
       case Gate(_) => true
       case CloseAdapter(_) => s.adapterLock == None
       case CloseConnection(_, conn) => conn !in s.connLocks
       case Closing(_, _) => true
       case MarkClosed(_) => true
       case CompareSession(_) => s.sessionLock == None
       case ClearSession(_) => s.sessionLock == None
       case ClearAdapter(_) => s.adapterLock == None
       case SetAdapter(_) => s.adapterLock == None
       case SetSession(_) => s.sessionLock == None
       case OpenGate(_) => true
       case UnwrapAdapter(_) => s.adapterLock == None
       case Listen(conn) => conn !in s.connLocks
       case LookAtSession => s.sessionLock == None
       case Finished(_) => false
  }

  function FirstPc(call: Call): Pc {
    match call
    case Send => SendSession
    case Close(sid) => Gate(sid)
    case Connect(sid) => SetAdapter(sid)
    case ReadSession => LookAtSession
  }

  ghost function Exec(apart: bool, s: State, step: Step): State
    requires Enabled(apart, s, step)
  {
    var t := step.t;
    match s.threads[t]
    case Unstarted(call) => s.(threads := s.threads[t := FirstPc(call)])
    case SendSession =>
      if s.session == None then s.(threads := s.threads[t := Finished(NotConnected)])
      else s.(sessionLock := Some(t), threads := s.threads[t := SendAdapter])
    case SendAdapter =>
      if s.adapter == None then s.(sessionLock := None, threads := s.threads[t := Finished(NoAdapter)])
      else s.(adapterLock := Some(t), threads := s.threads[t := SendConnection(s.adapter.value)])
    case SendConnection(conn) => s.(connLocks := s.connLocks[conn := t], threads := s.threads[t := Sending(conn)])
    case Sending(conn) =>
      s.(sessionLock := None, adapterLock := None, connLocks := s.connLocks - {conn},
         threads := s.threads[t := Finished(if step.ok then Sent else SendFailed)])
    case Gate(sid) =>
      if sid in s.gates && s.gates[sid].GateConnected? then
        s.(gates := s.gates[sid := GateClosing], threads := s.threads[t := CloseAdapter(sid)])
      else s.(threads := s.threads[t := Finished(CloseSkipped)])
    case CloseAdapter(sid) =>
      if s.adapter == None then s.(threads := s.threads[t := MarkClosed(sid)])
      else s.(adapterLock := Some(t), threads := s.threads[t := CloseConnection(sid, s.adapter.value)])
    case CloseConnection(sid, conn) =>
      s.(connLocks := s.connLocks[conn := t], threads := s.threads[t := Closing(sid, conn)])
    case Closing(sid, conn) =>
      s.(adapterLock := None, connLocks := s.connLocks - {conn}, threads := s.threads[t := MarkClosed(sid)])
    case MarkClosed(sid) =>
      s.(gates := if sid in s.gates then s.gates[sid := GateClosed] else s.gates,
         threads := s.threads[t := CompareSession(sid)])
    case CompareSession(sid) =>
      s.(threads := s.threads[t := if s.session == Some(sid) then ClearSession(sid) else Finished(Closed)])
    case ClearSession(sid) => s.(session := None, threads := s.threads[t := ClearAdapter(sid)])
    case ClearAdapter(_) => s.(adapter := None, threads := s.threads[t := Finished(Closed)])
    case SetAdapter(sid) =>
      s.(adapter := Some(s.nextConn), nextConn := s.nextConn + 1, threads := s.threads[t := SetSession(sid)])
    case SetSession(sid) => s.(session := Some(sid), threads := s.threads[t := OpenGate(sid)])
    case OpenGate(sid) =>
      s.(gates := if step.ok then s.gates[sid := GateConnected] else s.gates,
         threads := s.threads[t := UnwrapAdapter(sid)])
    case UnwrapAdapter(_) =>
      s.(threads := s.threads[t := if s.adapter == None then Finished(UnwrapPanic) else Listen(s.adapter.value)])
    case Listen(_) => s.(threads := s.threads[t := Finished(Listening)])
    case LookAtSession => s.(threads := s.threads[t := Finished(Answered)])
  }

  ghost predicate Next(apart: bool, s: State, s': State) {
    exists step :: Enabled(apart, s, step) && s' == Exec(apart, s, step)
  }

  // ---------- the invariant ----------

  ghost predicate HoldsSession(pc: Pc) {
    pc.SendAdapter? || pc.SendConnection? || pc.Sending?
  }

  ghost predicate HoldsAdapter(pc: Pc) {
    pc.SendConnection? || pc.Sending? || pc.CloseConnection? || pc.Closing?
  }

  ghost predicate HoldsConnection(pc: Pc, conn: nat) {
    (pc.Sending? || pc.Closing?) && pc.conn == conn
  }

  // Every lock is held by exactly the call whose code position holds it.

  ghost predicate SessionLockOk(s: State) {
    && (forall t :: 0 <= t < |s.threads| ==> (HoldsSession(s.threads[t]) <==> s.sessionLock == Some(t)))
    && (s.sessionLock.Some? ==> s.sessionLock.value < |s.threads|)
  }

  ghost predicate AdapterLockOk(s: State) {
    && (forall t :: 0 <= t < |s.threads| ==> (HoldsAdapter(s.threads[t]) <==> s.adapterLock == Some(t)))
    && (s.adapterLock.Some? ==> s.adapterLock.value < |s.threads|)
  }

  ghost predicate ConnLocksOk(s: State) {
    && (forall t, conn :: 0 <= t < |s.threads| ==>
          (HoldsConnection(s.threads[t], conn) <==> conn in s.connLocks && s.connLocks[conn] == t))
    && (forall conn :: conn in s.connLocks ==> s.connLocks[conn] < |s.threads|)
  }

  ghost predicate LocksOk(s: State) {
    SessionLockOk(s) && AdapterLockOk(s) && ConnLocksOk(s)
  }

  ghost predicate PcOk(s: State, pc: Pc) {
    && (HoldsSession(pc) ==> s.session.Some?)
    && (pc.SendConnection? || pc.Sending? || pc.CloseConnection? || pc.Closing? ==> s.adapter == Some(pc.conn))
    && (pc.SetSession? || pc.OpenGate? || pc.UnwrapAdapter? ==> s.adapter.Some?)
    && (pc.ClearAdapter? ==> s.session == None)
    && !(pc == Finished(NoAdapter) || pc == Finished(UnwrapPanic))
  }

  ghost predicate Inv(s: State) {
    && LocksOk(s)
    && !(AnyClosing(s) && AnyConnecting(s))
    && (s.session.Some? ==> s.adapter.Some?)
    && forall t :: 0 <= t < |s.threads| ==> PcOk(s, s.threads[t])
  }

  lemma KeepsSessionLock(apart: bool, s: State, step: Step)
    requires SessionLockOk(s) && Enabled(apart, s, step)
    ensures SessionLockOk(Exec(apart, s, step))
  {
  }

  lemma KeepsAdapterLock(apart: bool, s: State, step: Step)
    requires AdapterLockOk(s) && Enabled(apart, s, step)
    ensures AdapterLockOk(Exec(apart, s, step))
  {
  }

  lemma KeepsConnLocks(apart: bool, s: State, step: Step)
    requires ConnLocksOk(s) && Enabled(apart, s, step)
    ensures ConnLocksOk(Exec(apart, s, step))
  {
  }

  lemma KeepsLocks(apart: bool, s: State, step: Step)
    requires LocksOk(s) && Enabled(apart, s, step)
    ensures LocksOk(Exec(apart, s, step))
  {
    KeepsSessionLock(apart, s, step);
    KeepsAdapterLock(apart, s, step);
    KeepsConnLocks(apart, s, step);
  }

  lemma KeepsApart(s: State, step: Step)
    requires Enabled(true, s, step) && !(AnyClosing(s) && AnyConnecting(s))
    ensures var s' := Exec(true, s, step); !(AnyClosing(s') && AnyConnecting(s'))
  {
    var s' := Exec(true, s, step);
    var pc, pc' := s.threads[step.t], s'.threads[step.t];
    assert IsClosing(pc') ==> IsClosing(pc) || (pc.Unstarted? && pc.call.Close?);
    assert IsConnecting(pc') ==> IsConnecting(pc) || (pc.Unstarted? && pc.call.Connect?);
    assert AnyClosing(s') ==> AnyClosing(s) || (pc.Unstarted? && pc.call.Close?);
    assert AnyConnecting(s') ==> AnyConnecting(s) || (pc.Unstarted? && pc.call.Connect?);
    assert pc.Unstarted? ==> !(IsClosing(pc') && IsConnecting(pc'));
  }

  /** A move leaves another call fitting: what that call relies on is behind a lock it holds, or kept apart. */
  lemma OtherPcOk(s: State, step: Step, other: Pc)
    requires Enabled(true, s, step) && PcOk(s, other)
    requires HoldsSession(other) ==> s.sessionLock.Some?
    requires HoldsAdapter(other) ==> s.adapterLock.Some?
    requires !(IsClosing(s.threads[step.t]) && IsConnecting(other))
    requires !(IsClosing(other) && IsConnecting(s.threads[step.t]))
    ensures PcOk(Exec(true, s, step), other)
  {
  }

  lemma MoverPcOk(s: State, step: Step)
    requires Enabled(true, s, step) && PcOk(s, s.threads[step.t])
    requires s.session.Some? ==> s.adapter.Some?
    ensures PcOk(Exec(true, s, step), Exec(true, s, step).threads[step.t])
  {
    var pc := s.threads[step.t];
    if IsClosing(pc) {
    } else if IsConnecting(pc) {
    } else if pc.Unstarted? {
    } else {
    }
  }

  lemma KeepsPc(s: State, step: Step, u: nat)
    requires Inv(s) && Enabled(true, s, step) && u < |s.threads|
    ensures PcOk(Exec(true, s, step), Exec(true, s, step).threads[u])
  {
    var pc, other := s.threads[step.t], s.threads[u];
    assert PcOk(s, pc) && PcOk(s, other);
    if u == step.t {
      MoverPcOk(s, step);
    } else {
      assert Exec(true, s, step).threads[u] == other;
      assert IsClosing(pc) && IsConnecting(other) ==> AnyClosing(s) && AnyConnecting(s);
      assert IsClosing(other) && IsConnecting(pc) ==> AnyClosing(s) && AnyConnecting(s);
      OtherPcOk(s, step, other);
    }
  }

  lemma StepKeepsInv(s: State, step: Step)
    requires Inv(s) && Enabled(true, s, step)
    ensures Inv(Exec(true, s, step))
  {
    KeepsLocks(true, s, step);
    KeepsApart(s, step);
    forall u | 0 <= u < |s.threads|
      ensures PcOk(Exec(true, s, step), Exec(true, s, step).threads[u])
    {
      KeepsPc(s, step, u);
    }
    KeepsAdapter(s, step);
  }

  lemma KeepsAdapter(s: State, step: Step)
    requires Inv(s) && Enabled(true, s, step)
    ensures var s' := Exec(true, s, step); s'.session.Some? ==> s'.adapter.Some?
  {
    assert PcOk(s, s.threads[step.t]);
  }

  // ---------- every run ----------

  ghost predicate LockRun(apart: bool, run: seq<State>) {
    IsRun(Init, (s: State, s': State) => Next(apart, s, s'), run)
  }

  lemma InvOfRun(run: seq<State>)
    requires LockRun(true, run)
    ensures forall n :: 0 <= n < |run| ==> Inv(run[n])
  {
    forall s, s' | Inv(s) && Next(true, s, s')
      ensures Inv(s')
    {
      var step :| Enabled(true, s, step) && s' == Exec(true, s, step);
      StepKeepsInv(s, step);
    }
    InvariantOfRun(Init, (s: State, s': State) => Next(true, s, s'), Inv, run);
  }

  /**
  While connects and closes stay apart, a present session id implies a present adapter; so no send ever
  finds the session without its adapter, and the `unwrap` in `set_connection` never panics.
  */
  lemma SessionImpliesAdapter(run: seq<State>, n: nat)
    requires LockRun(true, run) && n < |run|
    ensures run[n].session.Some? ==> run[n].adapter.Some?
    ensures forall t :: 0 <= t < |run[n].threads| ==>
              run[n].threads[t] != Finished(NoAdapter) && run[n].threads[t] != Finished(UnwrapPanic)
  {
    InvOfRun(run);
    forall t | 0 <= t < |run[n].threads|
      ensures PcOk(run[n], run[n].threads[t])
    {
    }
  }

  // ---------- progress ----------

  /** In flight calls always include one that can move: locks are taken in one order. */
  lemma SomeoneCanMove(apart: bool, s: State, t: nat)
    requires LocksOk(s) && t < |s.threads| && InFlight(s.threads[t])
    ensures exists u :: 0 <= u < |s.threads| && InFlight(s.threads[u]) && Enabled(apart, s, Step(u, true))
  {
    var mover :=
      if s.connLocks != map[] then var conn :| conn in s.connLocks; s.connLocks[conn]
      else if s.adapterLock.Some? then s.adapterLock.value
      else if s.sessionLock.Some? then s.sessionLock.value
      else t;
    assert InFlight(s.threads[mover]);
    assert Enabled(apart, s, Step(mover, true));
  }

  /**
  Deadlock freedom. In every state of every run some unfinished call can move, and if any call is in
  flight, then one in flight can.
  */
  lemma DeadlockFree(apart: bool, run: seq<State>, n: nat)
    requires LockRun(apart, run) && n < |run|
    requires exists t :: 0 <= t < |run[n].threads| && !run[n].threads[t].Finished?
    ensures var s := run[n];
      exists t :: 0 <= t < |s.threads| && !s.threads[t].Finished? && Enabled(apart, s, Step(t, true))
    ensures var s := run[n];
      (exists t :: 0 <= t < |s.threads| && InFlight(s.threads[t])) ==>
        exists t :: 0 <= t < |s.threads| && InFlight(s.threads[t]) && Enabled(apart, s, Step(t, true))
  {
    var s := run[n];
    LocksOfRun(apart, run);
    if t :| 0 <= t < |s.threads| && InFlight(s.threads[t]) {
      SomeoneCanMove(apart, s, t);
    } else {
      var t :| 0 <= t < |s.threads| && !s.threads[t].Finished?;
      assert Enabled(apart, s, Step(t, true));
    }
  }

  lemma LocksOfRun(apart: bool, run: seq<State>)
    requires LockRun(apart, run)
    ensures forall n :: 0 <= n < |run| ==> LocksOk(run[n])
  {
    forall s, s' | LocksOk(s) && Next(apart, s, s')
      ensures LocksOk(s')
    {
      var step :| Enabled(apart, s, step) && s' == Exec(apart, s, step);
      KeepsLocks(apart, s, step);
    }
    InvariantOfRun(Init, (s: State, s': State) => Next(apart, s, s'), LocksOk, run);
  }

  /** How many moves a call has left at most. */
  function Remaining(pc: Pc): nat {
    match pc
    case Unstarted(_) => 9
    case SendSession => 4
    case SendAdapter => 3
    case SendConnection(_) => 2
    case Sending(_) => 1
    case Gate(_) => 8
    case CloseAdapter(_) => 7
    case CloseConnection(_, _) => 6
    case Closing(_, _) => 5
    case MarkClosed(_) => 4
    case CompareSession(_) => 3
    case ClearSession(_) => 2
    case ClearAdapter(_) => 1
    case SetAdapter(_) => 5
    case SetSession(_) => 4
    case OpenGate(_) => 3
    case UnwrapAdapter(_) => 2
    case Listen(_) => 1
    case LookAtSession => 1
    case Finished(_) => 0
  }

  ghost function Work(s: State): nat {
    Sum(Remaining, s.threads)
  }

  lemma MovesAreFinite(apart: bool, s: State, step: Step)
    requires Enabled(apart, s, step)
    ensures Remaining(Exec(apart, s, step).threads[step.t]) < Remaining(s.threads[step.t])
    ensures Exec(apart, s, step).threads == s.threads[step.t := Exec(apart, s, step).threads[step.t]]
  {
    var pc := s.threads[step.t];
    if pc.Unstarted? {
    } else if IsClosing(pc) {
    } else if IsConnecting(pc) {
    } else {
    }
  }

  lemma StepsUseUpWork(apart: bool, s: State, step: Step)
    requires Enabled(apart, s, step)
    ensures Work(Exec(apart, s, step)) < Work(s)
    ensures |Exec(apart, s, step).threads| == |s.threads|
  {
    MovesAreFinite(apart, s, step);
    var moved := Exec(apart, s, step).threads[step.t];
    hide Exec, Enabled;
    SumUpdate(Remaining, s.threads, step.t, moved);
  }

  /** No run is longer than nine moves a call: with deadlock freedom, every schedule finishes every call. */
  lemma {:induction false} RunsAreShort(apart: bool, run: seq<State>)
    requires LockRun(apart, run)
    ensures |run| - 1 + Work(run[|run| - 1]) <= 9 * |run[0].threads|
    ensures |run[|run| - 1].threads| == |run[0].threads|
  {
    hide Exec, Enabled, Remaining;
    var last := |run| - 1;
    if last == 0 {
      UnstartedWork(run[0].threads);
    } else {
      var front := run[..last];
      assert LockRun(apart, front);
      RunsAreShort(apart, front);
      assert Next(apart, run[last - 1], run[last - 1 + 1]);
      var step :| Enabled(apart, run[last - 1], step) && run[last] == Exec(apart, run[last - 1], step);
      StepsUseUpWork(apart, run[last - 1], step);
    }
  }

  lemma {:induction false} UnstartedWork(threads: seq<Pc>)
    requires forall t :: 0 <= t < |threads| ==> threads[t].Unstarted?
    ensures Sum(Remaining, threads) == 9 * |threads|
  {
    if threads != [] {
      UnstartedWork(threads[1..]);
    }
  }
}
