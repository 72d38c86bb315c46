/**
Which calls can lose the adapter. Without the discipline that keeps connects and closes apart, whether some
schedule of a set of calls leaves a session without its adapter, makes a send find it missing, or makes a
connect panic, depends only on what the calls are.
*/
module TransportLockCalls {
  import opened Prelude
  import opened Runs
  import opened TransportLocks

  /** A run without the discipline, of exactly these calls. */
  ghost predicate RunOf(calls: seq<Call>, run: seq<State>) {
    LockRun(false, run) && run[0].threads == Unstarteds(calls)
  }

  function Unstarteds(calls: seq<Call>): seq<Pc> {
    seq(|calls|, c requires 0 <= c < |calls| => Unstarted(calls[c]))
  }

  predicate ClosesAConnect(calls: seq<Call>) {
    exists i :: 0 <= i < |calls| && calls[i].Connect? && Close(calls[i].sid) in calls
  }

  /** A session is connected and closed, and there is another connect. */
  predicate ClosesOneOfTwoConnects(calls: seq<Call>) {
    exists i, j :: 0 <= i < |calls| && 0 <= j < |calls| && i != j
      && calls[i].Connect? && calls[j].Connect? && Close(calls[i].sid) in calls
  }

  ghost predicate LostAdapter(s: State) {
    s.session.Some? && s.adapter == None
  }

  // Only if: what the calls rule out.

  /** Each thread is where its own call takes it. */
  ghost predicate FitsCall(call: Call, pc: Pc) {
    && (pc.Unstarted? ==> pc.call == call)
    && (IsClosing(pc) ==> call == Close(pc.sid))
    && (IsConnecting(pc) ==> call == Connect(pc.sid))
    && (HoldsSession(pc) || pc.SendSession? || pc == Finished(NoAdapter) ==> call.Send?)
  }

  ghost predicate CallsFit(calls: seq<Call>, s: State) {
    && |calls| == |s.threads|
    && (forall t :: 0 <= t < |s.threads| ==> FitsCall(calls[t], s.threads[t]))
    && (forall sid :: sid in s.gates ==> Connect(sid) in calls)
  }

  /** A close that has passed its gate, so that its session had been connected. */
  ghost predicate PastGate(pc: Pc) {
    IsClosing(pc) && !pc.Gate?
  }

  ghost predicate NeedsAdapter(pc: Pc) {
    pc.SetSession? || pc.OpenGate? || pc.UnwrapAdapter?
  }

  /** If no session is both connected and closed, no close passes its gate and an adapter stays. */
  ghost predicate NoneClosed(s: State) {
    && (forall t :: 0 <= t < |s.threads| ==> !PastGate(s.threads[t]) && s.threads[t] != Finished(UnwrapPanic))
    && (forall t :: 0 <= t < |s.threads| && NeedsAdapter(s.threads[t]) ==> s.adapter.Some?)
    && (s.session.Some? ==> s.adapter.Some?)
  }

  ghost predicate NotYetOpen(pc: Pc) {
    (pc.Unstarted? && pc.call.Connect?) || pc.SetAdapter? || pc.SetSession?
  }

  /** With a single connect, a close passes its gate only after that connect has set the session. */
  ghost predicate OneConnectOk(s: State, pc: Pc) {
    && (NotYetOpen(pc) ==> s.gates == map[])
    && (PastGate(pc) ==> s.gates != map[])
    && (pc.SetSession? ==> s.adapter.Some?)
    && (pc.ClearAdapter? ==> s.session == None)
  }

  ghost predicate SingleConnect(s: State) {
    && (s.session.Some? ==> s.adapter.Some?)
    && (forall t :: 0 <= t < |s.threads| ==> OneConnectOk(s, s.threads[t]))
  }

  lemma KeepsCallsFit(calls: seq<Call>, s: State, step: Step)
    requires CallsFit(calls, s) && Enabled(false, s, step)
    ensures CallsFit(calls, Exec(false, s, step))
  {
    var pc := s.threads[step.t];
    assert FitsCall(calls[step.t], pc);
    MoverFitsCall(calls[step.t], s, step);
    var s' := Exec(false, s, step);
    assert s'.threads == s.threads[step.t := s'.threads[step.t]] by {
      MovesAreFinite(false, s, step);
    }
    GatesGrowBy(s, step);
  }

  lemma MoverFitsCall(call: Call, s: State, step: Step)
    requires Enabled(false, s, step) && FitsCall(call, s.threads[step.t])
    ensures FitsCall(call, Exec(false, s, step).threads[step.t])
  {
    var pc := s.threads[step.t];
    if pc.Unstarted? {
    } else if IsClosing(pc) {
    } else if IsConnecting(pc) {
    } else {
    }
  }

  lemma GatesGrowBy(s: State, step: Step)
    requires Enabled(false, s, step)
    ensures var pc := s.threads[step.t];
      Exec(false, s, step).gates.Keys <= s.gates.Keys + (if pc.OpenGate? then {pc.sid} else {})
  {
  }

  /** Whoever finds the gate of a session was asked to close one that some call connects. */
  lemma GateMeansConnect(calls: seq<Call>, s: State, t: nat)
    requires CallsFit(calls, s) && t < |s.threads|
    ensures s.threads[t].Gate? && s.threads[t].sid in s.gates ==> ClosesAConnect(calls)
  {
    assert FitsCall(calls[t], s.threads[t]);
    if s.threads[t].Gate? && s.threads[t].sid in s.gates {
      var i :| 0 <= i < |calls| && calls[i] == Connect(s.threads[t].sid);
      assert calls[t] == Close(calls[i].sid);
    }
  }

  lemma KeepsNoneClosed(calls: seq<Call>, s: State, step: Step)
    requires !ClosesAConnect(calls) && CallsFit(calls, s) && NoneClosed(s) && Enabled(false, s, step)
    ensures NoneClosed(Exec(false, s, step))
  {
    GateMeansConnect(calls, s, step.t);
    MovesAreFinite(false, s, step);
    NoneClosedStep(s, step);
  }

  lemma NoneClosedStep(s: State, step: Step)
    requires NoneClosed(s) && Enabled(false, s, step)
    requires s.threads[step.t].Gate? ==> s.threads[step.t].sid !in s.gates
    ensures NoneClosed(Exec(false, s, step))
  {
    var pc, s' := s.threads[step.t], Exec(false, s, step);
    assert !PastGate(pc);
    if pc.Unstarted? {
    } else if IsClosing(pc) {
    } else if IsConnecting(pc) {
    } else {
      assert s'.adapter == s.adapter && s'.session == s.session;
    }
  }

  lemma KeepsSingleConnect(calls: seq<Call>, s: State, step: Step)
    requires CallsFit(calls, s) && SingleConnect(s) && Enabled(false, s, step)
    requires forall i, j :: 0 <= i < j < |calls| ==> !(calls[i].Connect? && calls[j].Connect?)
    ensures SingleConnect(Exec(false, s, step))
  {
    var s' := Exec(false, s, step);
    MovesAreFinite(false, s, step);
    assert FitsCall(calls[step.t], s.threads[step.t]) && OneConnectOk(s, s.threads[step.t]);
    forall u | 0 <= u < |s.threads|
      ensures OneConnectOk(s', s'.threads[u])
    {
      assert FitsCall(calls[u], s.threads[u]) && OneConnectOk(s, s.threads[u]);
      if u == step.t {
        MoverSingleConnect(s, step);
      } else {
        OtherSingleConnect(s, step, s.threads[u]);
      }
    }
    SingleConnectAdapter(s, step);
  }

  lemma MoverSingleConnect(s: State, step: Step)
    requires Enabled(false, s, step) && OneConnectOk(s, s.threads[step.t])
    ensures OneConnectOk(Exec(false, s, step), Exec(false, s, step).threads[step.t])
  {
    var pc := s.threads[step.t];
    if pc.Unstarted? {
    } else if IsClosing(pc) {
      assert pc.Gate? && pc.sid in s.gates ==> pc.sid in Exec(false, s, step).gates;
      assert pc.MarkClosed? && pc.sid in s.gates ==> pc.sid in Exec(false, s, step).gates;
    } else if IsConnecting(pc) {
    } else {
    }
  }

  lemma OtherSingleConnect(s: State, step: Step, other: Pc)
    requires Enabled(false, s, step) && OneConnectOk(s, s.threads[step.t]) && OneConnectOk(s, other)
    requires IsConnecting(s.threads[step.t]) ==> !NotYetOpen(other)
    ensures OneConnectOk(Exec(false, s, step), other)
  {
    var pc := s.threads[step.t];
    if IsClosing(pc) {
    } else if IsConnecting(pc) {
      assert pc.OpenGate? && step.ok ==> pc.sid in Exec(false, s, step).gates;
    } else {
    }
  }

  lemma SingleConnectAdapter(s: State, step: Step)
    requires SingleConnect(s) && Enabled(false, s, step)
    ensures var s' := Exec(false, s, step); s'.session.Some? ==> s'.adapter.Some?
  {
    assert OneConnectOk(s, s.threads[step.t]);
  }

  // If: the runs.

  /** The states in which no lock is held: what the calls below start from and end in. */
  ghost predicate LocksFree(s: State) {
    s.sessionLock == None && s.adapterLock == None && s.connLocks == map[]
  }

  /** A call of this run that has not started. */
  ghost predicate Waits(run: seq<State>, t: nat) {
    |run| > 0 && t < |run[|run| - 1].threads| && run[|run| - 1].threads[t].Unstarted?
  }

  lemma Continue(calls: seq<Call>, run: seq<State>, t: nat) returns (longer: seq<State>)
    requires RunOf(calls, run) && Enabled(false, run[|run| - 1], Step(t, true))
    ensures RunOf(calls, longer)
    ensures longer[|longer| - 1] == Exec(false, run[|run| - 1], Step(t, true))
  {
    longer := run + [Exec(false, run[|run| - 1], Step(t, true))];
    forall i | 0 <= i < |longer| - 1
      ensures Next(false, longer[i], longer[i + 1])
    {
      assert i < |run| - 1 ==> Next(false, run[i], run[i + 1]);
    }
  }

  lemma Start(calls: seq<Call>) returns (run: seq<State>)
    ensures RunOf(calls, run)
    ensures run[|run| - 1] == State(None, None, map[], None, None, map[], 0, Unstarteds(calls))
  {
    run := [State(None, None, map[], None, None, map[], 0, Unstarteds(calls))];
  }

  /** A connect until it has set the session and is about to open the gate. */
  lemma ConnectToGate(calls: seq<Call>, run: seq<State>, t: nat) returns (longer: seq<State>)
    requires RunOf(calls, run) && LocksFree(run[|run| - 1])
    requires Waits(run, t) && run[|run| - 1].threads[t].call.Connect?
    ensures RunOf(calls, longer)
    ensures var s, sid := run[|run| - 1], run[|run| - 1].threads[t].call.sid;
      longer[|longer| - 1]
      == s.(adapter := Some(s.nextConn), session := Some(sid), nextConn := s.nextConn + 1,
            threads := s.threads[t := OpenGate(sid)])
  {
    longer := Continue(calls, run, t);
    longer := Continue(calls, longer, t);
    longer := Continue(calls, longer, t);
  }

  /** And on until the gate is open and the adapter is about to be unwrapped. */
  lemma ConnectToUnwrap(calls: seq<Call>, run: seq<State>, t: nat) returns (longer: seq<State>)
    requires RunOf(calls, run) && LocksFree(run[|run| - 1])
    requires Waits(run, t) && run[|run| - 1].threads[t].call.Connect?
    ensures RunOf(calls, longer)
    ensures var s, sid := run[|run| - 1], run[|run| - 1].threads[t].call.sid;
      longer[|longer| - 1]
      == s.(adapter := Some(s.nextConn), session := Some(sid), nextConn := s.nextConn + 1,
            gates := s.gates[sid := GateConnected], threads := s.threads[t := UnwrapAdapter(sid)])
  {
    longer := ConnectToGate(calls, run, t);
    longer := Continue(calls, longer, t);
  }

  /** A close of the present session until it has closed the connection. */
  lemma CloseConnectionOf(calls: seq<Call>, run: seq<State>, t: nat) returns (longer: seq<State>)
    requires RunOf(calls, run) && LocksFree(run[|run| - 1])
    requires Waits(run, t) && run[|run| - 1].threads[t].call.Close?
    requires var s, sid := run[|run| - 1], run[|run| - 1].threads[t].call.sid;
      sid in s.gates && s.gates[sid].GateConnected? && s.adapter.Some?
    ensures RunOf(calls, longer)
    ensures var s, sid := run[|run| - 1], run[|run| - 1].threads[t].call.sid;
      longer[|longer| - 1] == s.(gates := s.gates[sid := GateClosing], threads := s.threads[t := MarkClosed(sid)])
  {
    var s, sid := run[|run| - 1], run[|run| - 1].threads[t].call.sid;
    longer := Continue(calls, run, t);
    longer := Continue(calls, longer, t);
    longer := Continue(calls, longer, t);
    var threads := s.threads[t := CloseConnection(sid, s.adapter.value)];
    assert longer[|longer| - 1] == s.(gates := s.gates[sid := GateClosing], adapterLock := Some(t), threads := threads);
    longer := Continue(calls, longer, t);
    longer := Continue(calls, longer, t);
  }

  /** A close of the present session until it has cleared the session and is about to clear the adapter. */
  lemma CloseToAdapter(calls: seq<Call>, run: seq<State>, t: nat) returns (longer: seq<State>)
    requires RunOf(calls, run) && LocksFree(run[|run| - 1])
    requires Waits(run, t) && run[|run| - 1].threads[t].call.Close?
    requires var s, sid := run[|run| - 1], run[|run| - 1].threads[t].call.sid;
      sid in s.gates && s.gates[sid].GateConnected? && s.session == Some(sid) && s.adapter.Some?
    ensures RunOf(calls, longer)
    ensures var s, sid := run[|run| - 1], run[|run| - 1].threads[t].call.sid;
      longer[|longer| - 1]
      == s.(session := None, gates := s.gates[sid := GateClosed], threads := s.threads[t := ClearAdapter(sid)])
  {
    var s, sid := run[|run| - 1], run[|run| - 1].threads[t].call.sid;
    longer := CloseConnectionOf(calls, run, t);
    longer := Continue(calls, longer, t);
    longer := Continue(calls, longer, t);
    longer := Continue(calls, longer, t);
  }

  /** Any two connects and a close of the first: the second connects between the two cleanup steps of the close. */
  lemma ConnectDuringCloseLosesAdapter(calls: seq<Call>, i: nat, j: nat, k: nat) returns (run: seq<State>)
    requires i < |calls| && j < |calls| && k < |calls| && i != j
    requires calls[i].Connect? && calls[j].Connect? && calls[k] == Close(calls[i].sid)
    ensures RunOf(calls, run) && LocksFree(run[|run| - 1]) && LostAdapter(run[|run| - 1])
    ensures |run[|run| - 1].threads| == |calls|
    ensures forall c :: 0 <= c < |calls| && c !in {i, j, k} ==> run[|run| - 1].threads[c] == Unstarted(calls[c])
  {
    run := Start(calls);
    run := ConnectToUnwrap(calls, run, i);
    run := CloseToAdapter(calls, run, k);
    run := ConnectToGate(calls, run, j);
    run := Continue(calls, run, k);
  }

  /** Any connect and a close of it: the close runs between the opening of the gate and the unwrap. */
  lemma CloseDuringConnectPanics(calls: seq<Call>, i: nat, k: nat) returns (run: seq<State>)
    requires i < |calls| && k < |calls|
    requires calls[i].Connect? && calls[k] == Close(calls[i].sid)
    ensures RunOf(calls, run) && |run[|run| - 1].threads| == |calls|
    ensures run[|run| - 1].threads[i] == Finished(UnwrapPanic)
  {
    run := Start(calls);
    run := ConnectToUnwrap(calls, run, i);
    run := CloseToAdapter(calls, run, k);
    run := Continue(calls, run, k);
    run := Continue(calls, run, i);
  }

  /** A send that comes to a session without its adapter. */
  lemma SendFindsNoAdapter(calls: seq<Call>, run: seq<State>, t: nat) returns (longer: seq<State>)
    requires RunOf(calls, run) && LocksFree(run[|run| - 1]) && LostAdapter(run[|run| - 1])
    requires t < |run[|run| - 1].threads| && run[|run| - 1].threads[t] == Unstarted(Send)
    ensures RunOf(calls, longer)
    ensures t < |longer[|longer| - 1].threads| && longer[|longer| - 1].threads[t] == Finished(NoAdapter)
  {
    longer := Continue(calls, run, t);
    longer := Continue(calls, longer, t);
    longer := Continue(calls, longer, t);
  }

  // Only if, over runs.

  predicate TwoConnects(calls: seq<Call>) {
    exists i, j :: 0 <= i < j < |calls| && calls[i].Connect? && calls[j].Connect?
  }

  /** What the calls of a run allow in its states. */
  ghost predicate Allowed(calls: seq<Call>, s: State) {
    && CallsFit(calls, s)
    && (ClosesAConnect(calls) || NoneClosed(s))
    && (TwoConnects(calls) || SingleConnect(s))
    && SessionLockOk(s) && (s.sessionLock.Some? ==> s.session.Some?)
    && (SomeSendFindsNoAdapter(s) ==> ClosesOneOfTwoConnects(calls))
  }

  ghost predicate SomeSendFindsNoAdapter(s: State) {
    exists t :: 0 <= t < |s.threads| && s.threads[t] == Finished(NoAdapter)
  }

  ghost predicate SomeConnectPanics(s: State) {
    exists t :: 0 <= t < |s.threads| && s.threads[t] == Finished(UnwrapPanic)
  }

  /** A connect of a session that is closed, and any second connect, are two different calls. */
  lemma OtherConnect(calls: seq<Call>)
    requires ClosesAConnect(calls) && TwoConnects(calls)
    ensures ClosesOneOfTwoConnects(calls)
  {
    var i :| 0 <= i < |calls| && calls[i].Connect? && Close(calls[i].sid) in calls;
    var j, k :| 0 <= j < k < |calls| && calls[j].Connect? && calls[k].Connect?;
    assert i != j || i != k;
  }

  lemma KeepsAllowed(calls: seq<Call>, s: State, step: Step)
    requires Allowed(calls, s) && Enabled(false, s, step)
    ensures Allowed(calls, Exec(false, s, step))
  {
    hide Exec, Enabled, NoneClosed, SingleConnect, CallsFit, SessionLockOk;
    KeepsCallsFit(calls, s, step);
    if !ClosesAConnect(calls) {
      KeepsNoneClosed(calls, s, step);
    }
    if !TwoConnects(calls) {
      KeepsSingleConnect(calls, s, step);
    }
    KeepsSessionLock(false, s, step);
    LockedSessionStays(s, step);
    MissingAdapterWasLost(s, step);
    if LostAdapter(s) {
      LostMeansCalls(calls, s);
    }
  }

  lemma LockedSessionStays(s: State, step: Step)
    requires SessionLockOk(s) && Enabled(false, s, step) && (s.sessionLock.Some? ==> s.session.Some?)
    ensures var s' := Exec(false, s, step); s'.sessionLock.Some? ==> s'.session.Some?
  {
  }

  /** A send finds no adapter only in a state that has lost it: it holds the session it has seen. */
  lemma MissingAdapterWasLost(s: State, step: Step)
    requires SessionLockOk(s) && Enabled(false, s, step) && (s.sessionLock.Some? ==> s.session.Some?)
    ensures SomeSendFindsNoAdapter(Exec(false, s, step)) ==> SomeSendFindsNoAdapter(s) || LostAdapter(s)
  {
    var s' := Exec(false, s, step);
    MovesAreFinite(false, s, step);
    if t :| 0 <= t < |s'.threads| && s'.threads[t] == Finished(NoAdapter) {
      if t != step.t {
        assert s.threads[t] == Finished(NoAdapter);
      } else {
        MoverFindsNoAdapter(s, step);
      }
    }
  }

  lemma MoverFindsNoAdapter(s: State, step: Step)
    requires Enabled(false, s, step) && Exec(false, s, step).threads[step.t] == Finished(NoAdapter)
    ensures s.threads[step.t].SendAdapter? && s.adapter == None
  {
  }

  lemma LostMeansCalls(calls: seq<Call>, s: State)
    requires LostAdapter(s) && (ClosesAConnect(calls) || NoneClosed(s)) && (TwoConnects(calls) || SingleConnect(s))
    ensures ClosesOneOfTwoConnects(calls)
  {
    OtherConnect(calls);
  }

  lemma AllowedAtStart(calls: seq<Call>, s: State)
    requires Init(s) && s.threads == Unstarteds(calls)
    ensures Allowed(calls, s)
  {
  }

  lemma AllowedOfRun(calls: seq<Call>, run: seq<State>, n: nat)
    requires RunOf(calls, run) && n < |run|
    ensures Allowed(calls, run[n])
  {
    var init := (s: State) => Init(s) && s.threads == Unstarteds(calls);
    var next := (s: State, s': State) => Next(false, s, s');
    var inv := (s: State) => Allowed(calls, s);
    forall s | init(s)
      ensures inv(s)
    {
      AllowedAtStart(calls, s);
    }
    forall s, s' | inv(s) && next(s, s')
      ensures inv(s')
    {
      var step :| Enabled(false, s, step) && s' == Exec(false, s, step);
      KeepsAllowed(calls, s, step);
    }
    InvariantOfRun(init, next, inv, run);
    assert inv(run[n]);
  }

  /** Some run of exactly these calls comes to a state of this kind. */
  ghost predicate CanReach(calls: seq<Call>, kind: State -> bool) {
    exists run :: RunOf(calls, run) && kind(run[|run| - 1])
  }

  lemma Reached(calls: seq<Call>, kind: State -> bool) returns (s: State)
    requires CanReach(calls, kind)
    ensures Allowed(calls, s) && kind(s)
  {
    var run: seq<State> :| RunOf(calls, run) && kind(run[|run| - 1]);
    s := run[|run| - 1];
    AllowedOfRun(calls, run, |run| - 1);
  }

  /**
  Exactly when calls can leave a session without its adapter: one of two connects is also closed. And exactly
  when a send can find the adapter missing: if there is a send besides.
  */
  lemma AdapterLostExactlyWhen(calls: seq<Call>)
    ensures CanReach(calls, LostAdapter) <==> ClosesOneOfTwoConnects(calls)
    ensures CanReach(calls, SomeSendFindsNoAdapter) <==> ClosesOneOfTwoConnects(calls) && Send in calls
  {
    hide RunOf, NoneClosed, SingleConnect, SessionLockOk;
    if CanReach(calls, LostAdapter) {
      var s := Reached(calls, LostAdapter);
      LostMeansCalls(calls, s);
    }
    if CanReach(calls, SomeSendFindsNoAdapter) {
      var s := Reached(calls, SomeSendFindsNoAdapter);
      var t :| 0 <= t < |s.threads| && s.threads[t] == Finished(NoAdapter);
      assert FitsCall(calls[t], s.threads[t]);
    }
    if ClosesOneOfTwoConnects(calls) {
      LosingRun(calls);
    }
  }

  /** A run that loses the adapter, and then lets a send find it missing. */
  lemma LosingRun(calls: seq<Call>)
    requires ClosesOneOfTwoConnects(calls)
    ensures CanReach(calls, LostAdapter)
    ensures Send in calls ==> CanReach(calls, SomeSendFindsNoAdapter)
  {
    hide RunOf;
    var i, j :| 0 <= i < |calls| && 0 <= j < |calls| && i != j
      && calls[i].Connect? && calls[j].Connect? && Close(calls[i].sid) in calls;
    var k :| 0 <= k < |calls| && calls[k] == Close(calls[i].sid);
    var run := ConnectDuringCloseLosesAdapter(calls, i, j, k);
    if Send in calls {
      var t :| 0 <= t < |calls| && calls[t] == Send;
      var longer := SendFindsNoAdapter(calls, run, t);
    }
  }

  /** Exactly when the `unwrap` of a connect can panic: some session is both connected and closed. */
  lemma ConnectPanicsExactlyWhen(calls: seq<Call>)
    ensures CanReach(calls, SomeConnectPanics) <==> ClosesAConnect(calls)
  {
    hide RunOf, SingleConnect, SessionLockOk;
    if CanReach(calls, SomeConnectPanics) {
      var s := Reached(calls, SomeConnectPanics);
    }
    if ClosesAConnect(calls) {
      var i :| 0 <= i < |calls| && calls[i].Connect? && Close(calls[i].sid) in calls;
      var k :| 0 <= k < |calls| && calls[k] == Close(calls[i].sid);
      var run := CloseDuringConnectPanics(calls, i, k);
    }
  }
}
