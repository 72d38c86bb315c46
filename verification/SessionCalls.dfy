/**
What each call on the server's sessions has done by the time it returns, in every run of given calls. The calls
interleave at every table access, and any table write may give up.
*/
module SessionCalls {
  import opened Counting
  import opened Runs
  import opened SessionClose

  /** A run of exactly these calls. */
  ghost predicate RunOf(calls: seq<Call>, run: seq<State>) {
    IsRun(Init, Next, run) && run[0].threads == Unstarteds(calls)
  }

  function Unstarteds(calls: seq<Call>): seq<Pc> {
    seq(|calls|, c requires 0 <= c < |calls| => Unstarted(calls[c]))
  }

  /** The write of the add to this table did not go through, or a remove has undone it. */
  predicate Missing(s: State, table: Table, sid: nat) {
    (table, sid) !in s.put || (table, sid) in s.taken
  }

  /** The write of the add, or of the remove below, was made: it went through or gave up. */
  predicate Written(s: State, table: Table, sid: nat) {
    (table, sid) in s.put || sid in s.gaveUp
  }

  predicate Tried(s: State, table: Table, sid: nat) {
    (table, sid) in s.taken || sid in s.gaveUp
  }

  predicate IsClosed(cell: Cell) {
    cell.state == Closed
  }

  /** The state of the session says Closed, unless it could not be found any more. */
  ghost predicate Marked(s: State, sid: nat) {
    (forall c :: 0 <= c < |s.cells| && s.cells[c].sid == sid ==> IsClosed(s.cells[c])) || Missing(s, States, sid)
  }

  /** What a call that passed the gate has done up to a point: announced, disconnected, marked. */
  ghost predicate Announced(s: State, sid: nat, forced: bool) {
    sid in s.passed && ConnectionClosed(sid, if forced then Forced else Normal) in s.events
  }

  ghost predicate Disconnected(s: State, sid: nat) {
    sid in s.disconnected || Missing(s, Transports, sid)
  }

  /** What a call has done before it removes the session. */
  ghost predicate ReadyToRemove(s: State, call: Call, sid: nat) {
    match call
    case Add => false
    case Close(about, forced) => about == sid && Announced(s, sid, forced) && Disconnected(s, sid) && Marked(s, sid)
    case PeerClosed(about) => about == sid && ConnectionClosed(sid, Peer) in s.events
    case RemoveSession(about) => about == sid
  }

  ghost predicate CallOk(s: State, call: Call, pc: Pc) {
    match pc
    case Unstarted(first) => first == call
    case AddTransport(_) => call.Add?
    case AddStats(sid) => call.Add? && Written(s, Transports, sid)
    case AddState(sid) => call.Add? && Written(s, Transports, sid) && Written(s, Stats, sid)
    case FetchGate(sid, forced) => call == Close(sid, forced)
    case LockGate(sid, forced, _) => call == Close(sid, forced)
    case Announce(sid, forced) => call == Close(sid, forced) && sid in s.passed
    case Disconnect(sid) => call.Close? && call.sid == sid && Announced(s, sid, call.forced)
    case FetchMark(sid) =>
      call.Close? && call.sid == sid && Announced(s, sid, call.forced) && Disconnected(s, sid)
    case LockMark(sid, _) =>
      call.Close? && call.sid == sid && Announced(s, sid, call.forced) && Disconnected(s, sid)
    case AnnouncePeer(sid) => call == PeerClosed(sid)
    case RemoveTransport(sid) => ReadyToRemove(s, call, sid)
    case RemoveStats(sid) => ReadyToRemove(s, call, sid) && Tried(s, Transports, sid)
    case RemoveState(sid) => ReadyToRemove(s, call, sid) && Tried(s, Transports, sid) && Tried(s, Stats, sid)
    case Finished(outcome, sid) =>
      sid in s.added
      && match outcome
         case Added => call.Add? && forall table :: Written(s, table, sid)
         case Refused => call.Close? && call.sid == sid && sid in s.passed
         case NoSuchSession => call.Close? && call.sid == sid && Missing(s, States, sid)
         case Removed => ReadyToRemove(s, call, sid) && forall table :: Tried(s, table, sid)
  }

  ghost predicate CallsOk(calls: seq<Call>, s: State) {
    && |calls| == |s.threads|
    && forall t :: 0 <= t < |s.threads| ==> CallOk(s, calls[t], s.threads[t])
  }

  // ---------- each step keeps it ----------

  /** What is observed only grows; add writes are only those of the session being added. */
  lemma ObservedGrows(s: State, t: nat, ok: bool)
    requires Enabled(s, t)
    ensures var s', pc := Exec(s, t, ok), s.threads[t];
      && s.added <= s'.added && s.passed <= s'.passed && s.disconnected <= s'.disconnected && s.gaveUp <= s'.gaveUp
      && s.put <= s'.put && s.taken <= s'.taken && (forall e :: e in s.events ==> e in s'.events)
      && (forall table, sid :: (table, sid) in s'.put && (table, sid) !in s.put ==> Adds(pc) && pc.sid == sid)
  {
    if Adds(s.threads[t]) {
    } else if Removes(s.threads[t]) {
    } else {
      assert Exec(s, t, ok).put == s.put && Exec(s, t, ok).taken == s.taken;
    }
  }

  lemma MissingStays(s: State, t: nat, ok: bool, table: Table, sid: nat)
    requires Enabled(s, t) && PcOk(s, s.threads[t]) && sid in s.added && Missing(s, table, sid)
    ensures Missing(Exec(s, t, ok), table, sid)
  {
    hide Exec, Enabled;
    ObservedGrows(s, t, ok);
  }

  lemma MarkedStays(s: State, t: nat, ok: bool, sid: nat)
    requires Enabled(s, t) && PcOk(s, s.threads[t]) && sid in s.added && Marked(s, sid)
    ensures Marked(Exec(s, t, ok), sid)
  {
    hide Exec, Enabled;
    CellsStep(s, t, ok);
    if Missing(s, States, sid) {
      MissingStays(s, t, ok, States, sid);
    } else {
      MarkedCellsStay(s, t, ok, sid);
    }
  }

  lemma MarkedCellsStay(s: State, t: nat, ok: bool, sid: nat)
    requires Enabled(s, t) && PcOk(s, s.threads[t]) && sid in s.added
    requires forall c :: 0 <= c < |s.cells| && s.cells[c].sid == sid ==> IsClosed(s.cells[c])
    ensures var s' := Exec(s, t, ok);
      forall c :: 0 <= c < |s'.cells| && s'.cells[c].sid == sid ==> IsClosed(s'.cells[c])
  {
    var pc := s.threads[t];
    if pc.AddState? {
    } else if pc.LockGate? {
    } else if pc.LockMark? {
    } else {
      assert Exec(s, t, ok).cells == s.cells;
    }
  }

  lemma OtherCallOk(s: State, t: nat, ok: bool, call: Call, other: Pc)
    requires Enabled(s, t) && PcOk(s, s.threads[t]) && CallOk(s, call, other)
    requires UsesSession(other) ==> other.sid in s.added
    ensures CallOk(Exec(s, t, ok), call, other)
  {
    hide Exec, Enabled, PcOk, Missing, Marked;
    ObservedGrows(s, t, ok);
    if UsesSession(other) || other.Finished? {
      var sid := if other.Finished? then other.about else other.sid;
      forall table
        ensures Missing(s, table, sid) ==> Missing(Exec(s, t, ok), table, sid)
        ensures Written(s, table, sid) ==> Written(Exec(s, t, ok), table, sid)
        ensures Tried(s, table, sid) ==> Tried(Exec(s, t, ok), table, sid)
      {
        if Missing(s, table, sid) {
          MissingStays(s, t, ok, table, sid);
        }
      }
      if Marked(s, sid) {
        MarkedStays(s, t, ok, sid);
      }
    }
  }

  lemma MoverCallOk(s: State, t: nat, ok: bool, call: Call)
    requires Inv(s) && Enabled(s, t) && CallOk(s, call, s.threads[t])
    ensures CallOk(Exec(s, t, ok), call, Exec(s, t, ok).threads[t])
  {
    assert PcOk(s, s.threads[t]) && RemoverOk(s, s.threads[t]);
    var pc := s.threads[t];
    if pc.Unstarted? {
    } else if Adds(pc) {
      MovingAddOk(s, t, ok, call);
    } else if Removes(pc) {
      MovingRemoveOk(s, t, ok, call);
    } else {
      MovingCloseOk(s, t, ok, call);
    }
  }

  lemma MovingAddOk(s: State, t: nat, ok: bool, call: Call)
    requires Enabled(s, t) && CallOk(s, call, s.threads[t]) && Adds(s.threads[t])
    ensures CallOk(Exec(s, t, ok), call, Exec(s, t, ok).threads[t])
  {
    var sid, s' := s.threads[t].sid, Exec(s, t, ok);
    if s.threads[t].AddState? {
      forall table
        ensures Written(s', table, sid)
      {
        assert table.Transports? || table.Stats? || table.States?;
      }
    }
  }

  lemma MovingRemoveOk(s: State, t: nat, ok: bool, call: Call)
    requires Inv(s) && Enabled(s, t) && CallOk(s, call, s.threads[t]) && Removes(s.threads[t])
    ensures CallOk(Exec(s, t, ok), call, Exec(s, t, ok).threads[t])
  {
    assert PcOk(s, s.threads[t]) && RemoverOk(s, s.threads[t]);
    var sid, s' := s.threads[t].sid, Exec(s, t, ok);
    if Marked(s, sid) {
      MarkedStays(s, t, ok, sid);
    }
    if s.threads[t].RemoveState? {
      forall table
        ensures Tried(s', table, sid)
      {
        assert table.Transports? || table.Stats? || table.States?;
      }
    }
  }

  lemma MovingCloseOk(s: State, t: nat, ok: bool, call: Call)
    requires Inv(s) && Enabled(s, t) && CallOk(s, call, s.threads[t])
    requires UsesSession(s.threads[t]) && !Removes(s.threads[t])
    ensures CallOk(Exec(s, t, ok), call, Exec(s, t, ok).threads[t])
  {
    var sid := s.threads[t].sid;
    assert PcOk(s, s.threads[t]) && RemoverOk(s, s.threads[t]);
    assert WrittenOk(s, States, sid) && WrittenOk(s, Transports, sid);
  }

  lemma KeepsCalls(calls: seq<Call>, s: State, t: nat, ok: bool)
    requires Inv(s) && CallsOk(calls, s) && Enabled(s, t)
    ensures CallsOk(calls, Exec(s, t, ok))
  {
    hide CallOk;
    MoverAdds(s, t, ok);
    var s' := Exec(s, t, ok);
    forall u | 0 <= u < |s'.threads|
      ensures CallOk(s', calls[u], s'.threads[u])
    {
      assert CallOk(s, calls[u], s.threads[u]) && PcOk(s, s.threads[t]) && RemoverOk(s, s.threads[u]);
      if u == t {
        MoverCallOk(s, t, ok, calls[t]);
      } else {
        OtherCallOk(s, t, ok, calls[u], s.threads[u]);
      }
    }
  }

  lemma CallsOfRun(calls: seq<Call>, run: seq<State>, n: nat)
    requires RunOf(calls, run) && n < |run|
    ensures Inv(run[n]) && CallsOk(calls, run[n])
  {
    hide Inv, CallOk, Exec, Enabled;
    var init := (s: State) => Init(s) && s.threads == Unstarteds(calls);
    var inv := (s: State) => Inv(s) && CallsOk(calls, s);
    forall s | init(s)
      ensures inv(s)
    {
      InitHasInv(s);
      UnstartedOk(calls, s);
    }
    forall s, s' | inv(s) && Next(s, s')
      ensures inv(s')
    {
      var t, ok :| Enabled(s, t) && s' == Exec(s, t, ok);
      StepKeepsInv(s, t, ok);
      KeepsCalls(calls, s, t, ok);
    }
    InvariantOfRun(init, Next, inv, run);
    assert inv(run[n]);
  }

  lemma UnstartedOk(calls: seq<Call>, s: State)
    requires s.threads == Unstarteds(calls)
    ensures CallsOk(calls, s)
  {
  }

  // ---------- what a call has done when it returns ----------

  /**
  A close that has returned: the gate of its session has been passed, by it or by an earlier close, unless the session
  had no state. If it was this close, it has sent the event with the reason of its kind, told the transport of the
  session to disconnect, marked the session closed and tried to remove it from all three tables.
  */
  lemma CloseTakesEffect(calls: seq<Call>, run: seq<State>, n: nat, t: nat)
    requires RunOf(calls, run) && n < |run| && t < |calls| && calls[t].Close?
    requires t < |run[n].threads| && run[n].threads[t].Finished?
    ensures var s, sid := run[n], calls[t].sid;
      && (sid in s.passed || (States, sid) !in s.put || (States, sid) in s.taken)
      && s.threads[t].about == sid
      && match s.threads[t].outcome
         case Added => false
         case Refused => sid in s.passed
         case NoSuchSession => (States, sid) !in s.put || (States, sid) in s.taken
         case Removed =>
           && sid in s.passed
           && ConnectionClosed(sid, if calls[t].forced then Forced else Normal) in s.events
           && (sid in s.disconnected || (Transports, sid) !in s.put || (Transports, sid) in s.taken)
           && forall table :: (table, sid) in s.taken || sid in s.gaveUp
  {
    CallsOfRun(calls, run, n);
    assert CallOk(run[n], calls[t], run[n].threads[t]);
    forall table | Tried(run[n], table, calls[t].sid)
      ensures (table, calls[t].sid) in run[n].taken || calls[t].sid in run[n].gaveUp
    {
    }
  }

  /** A close that is about to remove its session finds its state Closed, unless the state cannot be found any more. */
  lemma ClosedBeforeRemoved(calls: seq<Call>, run: seq<State>, n: nat, t: nat)
    requires RunOf(calls, run) && n < |run| && t < |calls| && calls[t].Close?
    requires t < |run[n].threads| && run[n].threads[t].RemoveTransport?
    ensures var s, sid := run[n], calls[t].sid;
      sid in s.states ==> s.states[sid] < |s.cells| && s.cells[s.states[sid]].state == Closed
  {
    CallsOfRun(calls, run, n);
    assert CallOk(run[n], calls[t], run[n].threads[t]);
    assert WrittenOk(run[n], States, calls[t].sid);
  }

  /** Every other call that has returned has made its writes; a closed peer has been reported. */
  lemma OtherCallsTakeEffect(calls: seq<Call>, run: seq<State>, n: nat, t: nat)
    requires RunOf(calls, run) && n < |run| && t < |calls| && !calls[t].Close?
    requires t < |run[n].threads| && run[n].threads[t].Finished?
    ensures var s, sid := run[n], run[n].threads[t].about;
      match calls[t]
      case Add =>
        && s.threads[t].outcome.Added? && sid in s.added
        && forall table :: (table, sid) in s.put || sid in s.gaveUp
      case PeerClosed(about) =>
        && s.threads[t].outcome.Removed? && sid == about && ConnectionClosed(sid, Peer) in s.events
        && forall table :: (table, sid) in s.taken || sid in s.gaveUp
      case RemoveSession(about) =>
        && s.threads[t].outcome.Removed? && sid == about
        && forall table :: (table, sid) in s.taken || sid in s.gaveUp
      case Close(_, _) => false
  {
    CallsOfRun(calls, run, n);
    var s, sid := run[n], run[n].threads[t].about;
    assert CallOk(s, calls[t], s.threads[t]);
    forall table
      ensures Tried(s, table, sid) ==> (table, sid) in s.taken || sid in s.gaveUp
      ensures Written(s, table, sid) ==> (table, sid) in s.put || sid in s.gaveUp
    {
    }
  }

  // ---------- every call returns ----------

  /** A call that has not returned can move, unless it still waits for the session it is about to be added. */
  lemma NoCallIsStuck(run: seq<State>, n: nat, t: nat)
    requires IsRun(Init, Next, run) && n < |run| && t < |run[n].threads| && !run[n].threads[t].Finished?
    requires var pc := run[n].threads[t]; pc.Unstarted? && !pc.call.Add? ==> pc.call.sid in run[n].added
    ensures Enabled(run[n], t)
  {
    InvOfRun(run);
    assert PcOk(run[n], run[n].threads[t]);
  }

  /** How many steps a call has left at most. */
  function StepsLeft(pc: Pc): nat {
    match pc
    case Unstarted(_) => 10
    case AddTransport(_) => 3
    case AddStats(_) => 2
    case AddState(_) => 1
    case FetchGate(_, _) => 9
    case LockGate(_, _, _) => 8
    case Announce(_, _) => 7
    case Disconnect(_) => 6
    case FetchMark(_) => 5
    case LockMark(_, _) => 4
    case AnnouncePeer(_) => 4
    case RemoveTransport(_) => 3
    case RemoveStats(_) => 2
    case RemoveState(_) => 1
    case Finished(_, _) => 0
  }

  lemma StepsAreUsedUp(s: State, t: nat, ok: bool)
    requires Enabled(s, t)
    ensures t < |s.threads| && |Exec(s, t, ok).threads| == |s.threads|
    ensures StepsLeft(Exec(s, t, ok).threads[t]) < StepsLeft(s.threads[t])
  {
    MoverAdds(s, t, ok);
    var pc := s.threads[t];
    if Adds(pc) || pc.Unstarted? {
    } else if Removes(pc) {
    } else {
    }
  }

  /** No run has more than ten steps for each call. */
  lemma {:induction false} RunsAreShort(run: seq<State>)
    requires IsRun(Init, Next, run)
    ensures |run| - 1 + Sum(StepsLeft, run[|run| - 1].threads) <= 10 * |run[0].threads|
  {
    hide Exec, Enabled, StepsLeft;
    var last := |run| - 1;
    if last == 0 {
      UnstartedSteps(run[0].threads);
    } else {
      var front := run[..last];
      assert forall i :: 0 <= i < |front| - 1 ==> Next(run[i], run[i + 1]);
      RunsAreShort(front);
      assert Next(run[last - 1], run[last - 1 + 1]);
      var t: nat, ok: bool :| Enabled(run[last - 1], t) && run[last] == Exec(run[last - 1], t, ok);
      StepsAreUsedUp(run[last - 1], t, ok);
      MoverAdds(run[last - 1], t, ok);
      SumUpdate(StepsLeft, run[last - 1].threads, t, run[last].threads[t]);
    }
  }

  lemma {:induction false} UnstartedSteps(threads: seq<Pc>)
    requires forall t :: 0 <= t < |threads| ==> threads[t].Unstarted?
    ensures Sum(StepsLeft, threads) == 10 * |threads|
  {
    if threads != [] {
      UnstartedSteps(threads[1..]);
    }
  }
}
