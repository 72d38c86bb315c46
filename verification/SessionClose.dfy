/**
Adding and closing server sessions. Three tables hold a session; calls change them one entry at a time and
interleave between any two accesses. The state table holds a shared cell per session, which a call fetches
first and locks afterwards. Session ids are drawn from a counter, and a session is closed, removed or
reported closed by its peer only once its add has returned. The tables are lock-free maps, so any write to one
of them may give up (`ok` false) and leave it as it was; the calls go on regardless.
*/
module SessionClose {
  import opened Counting
  import opened Runs

  datatype ConnectionState = Connected | Closing | Closed

  /** The shared state cell of one session. */
  datatype Cell = Cell(sid: nat, state: ConnectionState)

  datatype Reason = Normal | Forced | Peer

  datatype Event = ConnectionClosed(sid: nat, reason: Reason)

  datatype Call = Add | Close(sid: nat, forced: bool) | PeerClosed(sid: nat) | RemoveSession(sid: nat)

  datatype Outcome = Added | Refused | NoSuchSession | Removed

  datatype Pc =
    | Unstarted(call: Call)
    // add_session
    | AddTransport(sid: nat)
    | AddStats(sid: nat)
    | AddState(sid: nat)
    // close_session, force_close_session: the state gate
    | FetchGate(sid: nat, forced: bool)
    | LockGate(sid: nat, forced: bool, cell: nat)
    // the caller that passed it
    | Announce(sid: nat, forced: bool)
    | Disconnect(sid: nat)
    | FetchMark(sid: nat)
    | LockMark(sid: nat, cell: nat)
    // the peer closed the connection
    | AnnouncePeer(sid: nat)
    // remove_session
    | RemoveTransport(sid: nat)
    | RemoveStats(sid: nat)
    | RemoveState(sid: nat)
    | Finished(outcome: Outcome, about: nat)

  datatype Table = Transports | Stats | States

  /**
  `added`, `passed`, `disconnected` and `gaveUp`, the sessions whose add returned, whose gate was passed, whose
  transport was told to disconnect and one of whose table writes gave up, and `put` and `taken`, the add and remove
  writes that went through, only observe the run.
  */
  datatype State = State(
    transports: set<nat>,
    stats: set<nat>,
    states: map<nat, nat>,
    cells: seq<Cell>,
    nextSid: nat,
    threads: seq<Pc>,
    events: seq<Event>,
    added: set<nat>,
    passed: set<nat>,
    disconnected: set<nat>,
    gaveUp: set<nat>,
    put: set<(Table, nat)>,
    taken: set<(Table, nat)>)

  ghost predicate Init(s: State) {
    && s.transports == {} && s.stats == {} && s.states == map[] && s.cells == [] && s.events == []
    && s.added == {} && s.passed == {} && s.disconnected == {} && s.gaveUp == {} && s.put == {} && s.taken == {}
    && forall t :: 0 <= t < |s.threads| ==> s.threads[t].Unstarted?
  }

  ghost predicate Enabled(s: State, t: nat) {
    && t < |s.threads|
    && match s.threads[t]
       case Unstarted(call) => call.Add? || call.sid in s.added
       case LockGate(_, _, cell) => cell < |s.cells|
       case LockMark(_, cell) => cell < |s.cells|
       case Finished(_, _) => false
       case _ => true
  }

  ghost function Exec(s: State, t: nat, ok: bool): State
    requires Enabled(s, t)
  {
    match s.threads[t]
    case Unstarted(Add) => s.(threads := s.threads[t := AddTransport(s.nextSid)], nextSid := s.nextSid + 1)
    case Unstarted(Close(sid, forced)) => s.(threads := s.threads[t := FetchGate(sid, forced)])
    case Unstarted(PeerClosed(sid)) => s.(threads := s.threads[t := AnnouncePeer(sid)])
    case Unstarted(RemoveSession(sid)) => s.(threads := s.threads[t := RemoveTransport(sid)])
    case AddTransport(sid) =>
      var next := Put(s.(threads := s.threads[t := AddStats(sid)]), Transports, sid, ok);
      if ok then next.(transports := s.transports + {sid}) else next
    case AddStats(sid) =>
      var next := Put(s.(threads := s.threads[t := AddState(sid)]), Stats, sid, ok);
      if ok then next.(stats := s.stats + {sid}) else next
    case AddState(sid) =>
      var next := Put(s.(added := s.added + {sid}, threads := s.threads[t := Finished(Added, sid)]), States, sid, ok);
      if ok then next.(states := s.states[sid := |s.cells|], cells := s.cells + [Cell(sid, Connected)]) else next
    case FetchGate(sid, forced) =>
      var next := if sid in s.states then LockGate(sid, forced, s.states[sid]) else Finished(NoSuchSession, sid);
      s.(threads := s.threads[t := next])
    case LockGate(sid, forced, cell) =>
      if s.cells[cell].state == Connected then
        s.(cells := s.cells[cell := s.cells[cell].(state := Closing)], passed := s.passed + {sid},
           threads := s.threads[t := Announce(sid, forced)])
      else s.(threads := s.threads[t := Finished(Refused, sid)])
    case Announce(sid, forced) =>
      s.(events := s.events + [ConnectionClosed(sid, if forced then Forced else Normal)],
         threads := s.threads[t := Disconnect(sid)])
    case Disconnect(sid) =>
      s.(disconnected := if sid in s.transports then s.disconnected + {sid} else s.disconnected,
         threads := s.threads[t := FetchMark(sid)])
    case FetchMark(sid) =>
      s.(threads := s.threads[t := if sid in s.states then LockMark(sid, s.states[sid]) else RemoveTransport(sid)])
    case LockMark(sid, cell) =>
      s.(cells := s.cells[cell := s.cells[cell].(state := Closed)], threads := s.threads[t := RemoveTransport(sid)])
    case AnnouncePeer(sid) =>
      s.(events := s.events + [ConnectionClosed(sid, Peer)], threads := s.threads[t := RemoveTransport(sid)])
    case RemoveTransport(sid) =>
      var next := Take(s.(threads := s.threads[t := RemoveStats(sid)]), Transports, sid, ok);
      if ok then next.(transports := s.transports - {sid}) else next
    case RemoveStats(sid) =>
      var next := Take(s.(threads := s.threads[t := RemoveState(sid)]), Stats, sid, ok);
      if ok then next.(stats := s.stats - {sid}) else next
    case RemoveState(sid) =>
      var next := Take(s.(threads := s.threads[t := Finished(Removed, sid)]), States, sid, ok);
      if ok then next.(states := s.states - {sid}) else next
  }

  // Note whether a table write went through or gave up; the code does not look at what its writes return.

  function Put(s: State, table: Table, sid: nat, ok: bool): State {
    if ok then s.(put := s.put + {(table, sid)}) else s.(gaveUp := s.gaveUp + {sid})
  }

  function Take(s: State, table: Table, sid: nat, ok: bool): State {
    if ok then s.(taken := s.taken + {(table, sid)}) else s.(gaveUp := s.gaveUp + {sid})
  }

  ghost predicate Next(s: State, s': State) {
    exists t, ok :: Enabled(s, t) && s' == Exec(s, t, ok)
  }

  // ---------- the gate ----------

  /** How many ConnectionClosed events the close calls, not the peer, have sent for a session. */
  function CloseEvents(events: seq<Event>, sid: nat): nat {
    if events == [] then 0
    else
      CloseEvents(events[..|events| - 1], sid)
      + (if events[|events| - 1].sid == sid && events[|events| - 1].reason != Peer then 1 else 0)
  }

  ghost function AboutToAnnounce(sid: nat): Pc -> nat {
    (pc: Pc) => if pc.Announce? && pc.sid == sid then 1 else 0
  }

  /** A call that has passed the gate and has not yet marked its session closed. */
  ghost predicate IsCloser(pc: Pc) {
    pc.Announce? || pc.Disconnect? || pc.FetchMark? || pc.LockMark?
  }

  ghost predicate Closes(pc: Pc, sid: nat) {
    IsCloser(pc) && pc.sid == sid
  }

  ghost function Closers(sid: nat): Pc -> nat {
    (pc: Pc) => if Closes(pc, sid) then 1 else 0
  }

  /** One cell per session that was added, which has left Connected exactly when the gate was passed. */
  ghost predicate CellsOk(s: State) {
    && (forall c :: 0 <= c < |s.cells| ==> s.cells[c].sid in s.added)
    && (forall c, d :: 0 <= c < d < |s.cells| ==> s.cells[c].sid != s.cells[d].sid)
    && (forall c :: 0 <= c < |s.cells| ==> (s.cells[c].state != Connected <==> s.cells[c].sid in s.passed))
  }

  ghost predicate StatesOk(s: State) {
    && (forall sid :: sid in s.states ==> s.states[sid] < |s.cells| && s.cells[s.states[sid]].sid == sid)
    && s.passed <= s.added
  }

  ghost predicate GateOk(s: State, sid: nat) {
    && CloseEvents(s.events, sid) + Sum(AboutToAnnounce(sid), s.threads) == (if sid in s.passed then 1 else 0)
    && Sum(Closers(sid), s.threads) <= (if sid in s.passed then 1 else 0)
  }

  ghost predicate PcOk(s: State, pc: Pc) {
    match pc
    case AddTransport(sid) => sid < s.nextSid && sid !in s.added
    case AddStats(sid) => sid < s.nextSid && sid !in s.added
    case AddState(sid) => sid < s.nextSid && sid !in s.added
    case LockGate(sid, _, cell) => cell < |s.cells| && s.cells[cell].sid == sid
    case LockMark(sid, cell) => cell < |s.cells| && s.cells[cell].sid == sid && s.cells[cell].state == Closing
    case Announce(sid, _) => forall c :: 0 <= c < |s.cells| && s.cells[c].sid == sid ==> s.cells[c].state == Closing
    case Disconnect(sid) => forall c :: 0 <= c < |s.cells| && s.cells[c].sid == sid ==> s.cells[c].state == Closing
    case FetchMark(sid) => forall c :: 0 <= c < |s.cells| && s.cells[c].sid == sid ==> s.cells[c].state == Closing
    case Finished(outcome, sid) => outcome.Refused? ==> sid in s.passed
    case _ => true
  }

  ghost predicate Adds(pc: Pc) {
    pc.AddTransport? || pc.AddStats? || pc.AddState?
  }

  ghost predicate AddsOk(s: State) {
    && (forall sid :: sid in s.added ==> sid < s.nextSid)
    && (forall t, u :: 0 <= t < u < |s.threads| && Adds(s.threads[t]) && Adds(s.threads[u]) ==>
          s.threads[t].sid != s.threads[u].sid)
  }

  // ---------- the tables ----------

  /** A call that has taken the session out of some tables but not yet out of the next one. */
  ghost predicate OwesStats(s: State, sid: nat) {
    exists t :: 0 <= t < |s.threads| && s.threads[t] == RemoveStats(sid)
  }

  ghost predicate OwesState(s: State, sid: nat) {
    exists t :: 0 <= t < |s.threads| && s.threads[t] == RemoveState(sid)
  }

  ghost predicate BeingAdded(s: State, sid: nat) {
    exists t :: 0 <= t < |s.threads| && Adds(s.threads[t]) && s.threads[t].sid == sid
  }

  ghost predicate TablesOk(s: State, sid: nat) {
    && (sid in s.added && sid !in s.gaveUp ==>
          && (sid in s.transports ==> sid in s.stats)
          && (sid in s.stats ==> sid in s.states)
          && (sid in s.stats && sid !in s.transports ==> OwesStats(s, sid))
          && (sid in s.states && sid !in s.stats ==> OwesState(s, sid)))
    && (sid !in s.added ==>
          && sid !in s.states
          && (sid in s.transports || sid in s.stats ==> BeingAdded(s, sid)))
  }

  ghost predicate UsesSession(pc: Pc) {
    !pc.Unstarted? && !Adds(pc) && !pc.Finished?
  }

  /** A session that was added and is in no table any more. */
  ghost predicate Gone(s: State, sid: nat) {
    sid in s.added && sid !in s.transports && sid !in s.stats && sid !in s.states
  }

  ghost predicate RemoverOk(s: State, pc: Pc) {
    && (UsesSession(pc) ==> pc.sid in s.added)
    && (pc.RemoveStats? ==> pc.sid !in s.transports || pc.sid in s.gaveUp)
    && (pc.RemoveState? ==> (pc.sid !in s.transports && pc.sid !in s.stats) || pc.sid in s.gaveUp)
    && (pc.AddStats? ==> pc.sid in s.transports || pc.sid in s.gaveUp)
    && (pc.AddState? ==> (pc.sid in s.transports && pc.sid in s.stats) || pc.sid in s.gaveUp)
    && (pc.Finished? && pc.outcome.Removed? ==> pc.about in s.added && (Gone(s, pc.about) || pc.about in s.gaveUp))
  }

  ghost predicate InTable(s: State, table: Table, sid: nat) {
    match table
    case Transports => sid in s.transports
    case Stats => sid in s.stats
    case States => sid in s.states
  }

  ghost predicate WrittenOk(s: State, table: Table, sid: nat) {
    && (InTable(s, table, sid) <==> (table, sid) in s.put && (table, sid) !in s.taken)
    && ((table, sid) in s.taken ==> sid in s.added)
  }

  ghost predicate Inv(s: State) {
    && CellsOk(s)
    && (forall table, sid :: WrittenOk(s, table, sid))
    && StatesOk(s)
    && AddsOk(s)
    && (forall sid :: GateOk(s, sid))
    && (forall sid :: TablesOk(s, sid))
    && (forall t :: 0 <= t < |s.threads| ==> PcOk(s, s.threads[t]))
    && (forall t :: 0 <= t < |s.threads| ==> RemoverOk(s, s.threads[t]))
  }

  // ---------- each step keeps it ----------

  /** A step moves its own thread only, and an add goes on with its own session or takes a fresh one. */
  lemma MoverAdds(s: State, t: nat, ok: bool)
    requires Enabled(s, t)
    ensures var s', pc, pc' := Exec(s, t, ok), s.threads[t], Exec(s, t, ok).threads[t];
      && s'.threads == s.threads[t := pc'] && s.nextSid <= s'.nextSid
      && s'.added == s.added + (if pc.AddState? then {pc.sid} else {})
      && (Adds(pc') ==> (Adds(pc) && pc'.sid == pc.sid) || (pc.Unstarted? && pc'.sid == s.nextSid < s'.nextSid))
  {
    if Adds(s.threads[t]) || s.threads[t].Unstarted? {
    } else if IsCloser(s.threads[t]) || s.threads[t].LockGate? {
    } else {
    }
  }

  lemma KeepsAdds(s: State, t: nat, ok: bool)
    requires AddsOk(s) && Enabled(s, t)
    requires forall u :: 0 <= u < |s.threads| && Adds(s.threads[u]) ==> s.threads[u].sid < s.nextSid
    ensures AddsOk(Exec(s, t, ok))
  {
    MoverAdds(s, t, ok);
    hide Exec;
  }

  lemma KeepsCells(s: State, t: nat, ok: bool)
    requires CellsOk(s) && StatesOk(s) && Enabled(s, t) && PcOk(s, s.threads[t])
    ensures CellsOk(Exec(s, t, ok))
  {
    var pc := s.threads[t];
    if pc.AddState? {
    } else if pc.LockGate? {
    } else if pc.LockMark? {
    } else {
      assert Exec(s, t, ok).cells == s.cells && Exec(s, t, ok).added == s.added && Exec(s, t, ok).passed == s.passed;
    }
  }

  lemma KeepsStates(s: State, t: nat, ok: bool)
    requires CellsOk(s) && StatesOk(s) && Enabled(s, t) && PcOk(s, s.threads[t])
    ensures StatesOk(Exec(s, t, ok))
  {
    var pc := s.threads[t];
    if pc.AddState? {
    } else if pc.LockGate? {
    } else if pc.LockMark? {
    } else {
      assert Exec(s, t, ok).cells == s.cells && Exec(s, t, ok).added == s.added && Exec(s, t, ok).passed == s.passed;
    }
  }

  lemma SumsStep(s: State, t: nat, ok: bool, sid: nat)
    requires Enabled(s, t)
    ensures Sum(AboutToAnnounce(sid), Exec(s, t, ok).threads) + AboutToAnnounce(sid)(s.threads[t])
         == Sum(AboutToAnnounce(sid), s.threads) + AboutToAnnounce(sid)(Exec(s, t, ok).threads[t])
    ensures Sum(Closers(sid), Exec(s, t, ok).threads) + Closers(sid)(s.threads[t])
         == Sum(Closers(sid), s.threads) + Closers(sid)(Exec(s, t, ok).threads[t])
  {
    SumUpdate(AboutToAnnounce(sid), s.threads, t, Exec(s, t, ok).threads[t]);
    SumUpdate(Closers(sid), s.threads, t, Exec(s, t, ok).threads[t]);
  }

  /** The events grow only by what an announcing call sends. */
  lemma EventsStep(s: State, t: nat, ok: bool, sid: nat)
    requires Enabled(s, t)
    ensures CloseEvents(Exec(s, t, ok).events, sid) == CloseEvents(s.events, sid) + AboutToAnnounce(sid)(s.threads[t])
  {
    var s' := Exec(s, t, ok);
    if |s'.events| > |s.events| {
      assert s'.events[..|s'.events| - 1] == s.events;
    }
  }

  lemma KeepsGate(s: State, t: nat, ok: bool, sid: nat)
    requires CellsOk(s) && Enabled(s, t) && PcOk(s, s.threads[t]) && GateOk(s, sid)
    ensures GateOk(Exec(s, t, ok), sid)
  {
    hide Sum, CloseEvents;
    SumsStep(s, t, ok, sid);
    EventsStep(s, t, ok, sid);
    if s.threads[t].LockGate? {
    }
  }

  /** Two calls never close one session, and a call that closes it has passed its gate. */
  lemma CloserIsAlone(s: State, t: nat, u: nat)
    requires t < |s.threads| && u < |s.threads| && t != u
    requires IsCloser(s.threads[t]) && GateOk(s, s.threads[t].sid)
    ensures s.threads[t].sid in s.passed && !Closes(s.threads[u], s.threads[t].sid)
  {
    var sid := s.threads[t].sid;
    SumAtLeast(Closers(sid), s.threads, t);
    SumUpdate(Closers(sid), s.threads, t, Finished(Removed, 0));
    SumAtLeast(Closers(sid), s.threads[t := Finished(Removed, 0)], u);
  }

  /** A step changes at most the cell it has locked, or adds one for the session it has added. */
  lemma CellsStep(s: State, t: nat, ok: bool)
    requires Enabled(s, t)
    ensures var s', pc := Exec(s, t, ok), s.threads[t];
      && s.nextSid <= s'.nextSid && s.passed <= s'.passed && |s.cells| <= |s'.cells|
      && s'.added == s.added + (if pc.AddState? then {pc.sid} else {})
      && (forall c :: 0 <= c < |s.cells| ==> s'.cells[c].sid == s.cells[c].sid)
      && (forall c :: 0 <= c < |s.cells| && s'.cells[c] != s.cells[c] ==> MayChange(pc, c, s.cells[c]))
      && (forall c :: |s.cells| <= c < |s'.cells| ==> pc.AddState? && s'.cells[c].sid == pc.sid)
  {
    if Adds(s.threads[t]) || s.threads[t].Unstarted? {
    } else if IsCloser(s.threads[t]) || s.threads[t].LockGate? {
    } else {
    }
  }

  ghost predicate MayChange(pc: Pc, c: nat, cell: Cell) {
    (pc.LockGate? && pc.cell == c && cell.state == Connected) || (pc.LockMark? && pc.cell == c)
  }

  lemma OtherPcOk(s: State, t: nat, ok: bool, pc: Pc)
    requires CellsOk(s) && AddsOk(s) && StatesOk(s) && Enabled(s, t) && PcOk(s, pc) && PcOk(s, s.threads[t])
    requires Adds(pc) && Adds(s.threads[t]) ==> pc.sid != s.threads[t].sid
    requires IsCloser(pc) ==> pc.sid in s.passed && pc.sid in s.added && !Closes(s.threads[t], pc.sid)
    ensures PcOk(Exec(s, t, ok), pc)
  {
    CellsStep(s, t, ok);
    hide Exec, Enabled;
  }

  lemma MovingCloserPcOk(s: State, t: nat, ok: bool)
    requires CellsOk(s) && StatesOk(s) && Enabled(s, t) && PcOk(s, s.threads[t])
    requires IsCloser(s.threads[t]) || s.threads[t].LockGate?
    ensures PcOk(Exec(s, t, ok), Exec(s, t, ok).threads[t])
  {
    if IsCloser(s.threads[t]) {
    } else {
    }
  }

  lemma MoverPcOk(s: State, t: nat, ok: bool)
    requires CellsOk(s) && AddsOk(s) && StatesOk(s) && Enabled(s, t) && PcOk(s, s.threads[t])
    ensures PcOk(Exec(s, t, ok), Exec(s, t, ok).threads[t])
  {
    var pc := s.threads[t];
    if IsCloser(pc) || pc.LockGate? {
      MovingCloserPcOk(s, t, ok);
    } else if Adds(pc) || pc.Unstarted? {
    } else {
    }
  }

  lemma KeepsPc(s: State, t: nat, ok: bool, u: nat)
    requires Inv(s) && Enabled(s, t) && u < |s.threads|
    ensures PcOk(Exec(s, t, ok), Exec(s, t, ok).threads[u])
  {
    assert PcOk(s, s.threads[t]) && PcOk(s, s.threads[u]) && RemoverOk(s, s.threads[u]);
    if u == t {
      MoverPcOk(s, t, ok);
    } else {
      var pc := s.threads[u];
      if IsCloser(pc) {
        assert GateOk(s, pc.sid);
        CloserIsAlone(s, u, t);
      }
      OtherPcOk(s, t, ok, pc);
    }
  }

  lemma KeepsRemover(s: State, t: nat, ok: bool, u: nat)
    requires Inv(s) && Enabled(s, t) && u < |s.threads|
    ensures RemoverOk(Exec(s, t, ok), Exec(s, t, ok).threads[u])
  {
    assert PcOk(s, s.threads[t]) && RemoverOk(s, s.threads[t]);
    assert PcOk(s, s.threads[u]) && RemoverOk(s, s.threads[u]);
    if Adds(s.threads[t]) || s.threads[t].Unstarted? {
    } else if IsCloser(s.threads[t]) || s.threads[t].LockGate? {
    } else {
    }
  }

  /** Where a step takes a call that adds or removes a session. */
  lemma MoverOwes(s: State, t: nat, ok: bool)
    requires Enabled(s, t)
    ensures var pc, pc' := s.threads[t], Exec(s, t, ok).threads[t];
      && Exec(s, t, ok).threads == s.threads[t := pc']
      && (pc.AddTransport? ==> pc' == AddStats(pc.sid)) && (pc.AddStats? ==> pc' == AddState(pc.sid))
      && (pc.RemoveTransport? ==> pc' == RemoveStats(pc.sid)) && (pc.RemoveStats? ==> pc' == RemoveState(pc.sid))
  {
    if Adds(s.threads[t]) || s.threads[t].Unstarted? {
    } else if IsCloser(s.threads[t]) || s.threads[t].LockGate? {
    } else {
    }
  }

  /** The call that owes a table access still owes it, unless this step was that access. */
  lemma OwnersStep(s: State, t: nat, ok: bool, sid: nat)
    requires Enabled(s, t)
    ensures var s' := Exec(s, t, ok);
      && (OwesStats(s, sid) && s.threads[t] != RemoveStats(sid) ==> OwesStats(s', sid))
      && (s'.threads[t] == RemoveStats(sid) ==> OwesStats(s', sid))
      && (OwesState(s, sid) && s.threads[t] != RemoveState(sid) ==> OwesState(s', sid))
      && (s'.threads[t] == RemoveState(sid) ==> OwesState(s', sid))
      && (BeingAdded(s, sid) && s.threads[t] != AddState(sid) ==> BeingAdded(s', sid))
      && (s'.threads[t] == AddStats(sid) || s'.threads[t] == AddState(sid) ==> BeingAdded(s', sid))
  {
    MoverOwes(s, t, ok);
    hide Exec, Enabled;
    var s' := Exec(s, t, ok);
    if OwesStats(s, sid) {
      var u :| 0 <= u < |s.threads| && s.threads[u] == RemoveStats(sid);
      assert u != t ==> s'.threads[u] == RemoveStats(sid);
    }
    if OwesState(s, sid) {
      var u :| 0 <= u < |s.threads| && s.threads[u] == RemoveState(sid);
      assert u != t ==> s'.threads[u] == RemoveState(sid);
    }
    if BeingAdded(s, sid) {
      var u :| 0 <= u < |s.threads| && Adds(s.threads[u]) && s.threads[u].sid == sid;
      assert s'.threads[u] == if u != t then s.threads[u] else s'.threads[t];
    }
  }

  ghost predicate Removes(pc: Pc) {
    pc.RemoveTransport? || pc.RemoveStats? || pc.RemoveState?
  }

  /** Each table changes only by a write of its own that goes through. */
  lemma TablesStep(s: State, t: nat, ok: bool)
    requires Enabled(s, t)
    ensures var s', pc := Exec(s, t, ok), s.threads[t];
      && s'.transports == (if ok && pc.AddTransport? then s.transports + {pc.sid}
                           else if ok && pc.RemoveTransport? then s.transports - {pc.sid}
                           else s.transports)
      && s'.stats == (if ok && pc.AddStats? then s.stats + {pc.sid}
                      else if ok && pc.RemoveStats? then s.stats - {pc.sid}
                      else s.stats)
      && s'.states.Keys == (if ok && pc.AddState? then s.states.Keys + {pc.sid}
                            else if ok && pc.RemoveState? then s.states.Keys - {pc.sid}
                            else s.states.Keys)
      && s'.added == s.added + (if pc.AddState? then {pc.sid} else {})
      && s'.gaveUp == s.gaveUp + (if !ok && (Adds(pc) || Removes(pc)) then {pc.sid} else {})
  {
    if Adds(s.threads[t]) {
    } else if Removes(s.threads[t]) {
    } else {
      OtherTablesStep(s, t, ok);
    }
  }

  lemma OtherTablesStep(s: State, t: nat, ok: bool)
    requires Enabled(s, t) && !Adds(s.threads[t]) && !Removes(s.threads[t])
    ensures var s' := Exec(s, t, ok);
      && s'.transports == s.transports && s'.stats == s.stats && s'.states == s.states
      && s'.added == s.added && s'.gaveUp == s.gaveUp && s'.put == s.put && s'.taken == s.taken
  {
  }

  lemma KeepsTables(s: State, t: nat, ok: bool, sid: nat)
    requires Enabled(s, t) && TablesOk(s, sid)
    requires PcOk(s, s.threads[t]) && RemoverOk(s, s.threads[t])
    ensures TablesOk(Exec(s, t, ok), sid)
  {
    hide OwesStats, OwesState, BeingAdded, Exec, Enabled;
    OwnersStep(s, t, ok, sid);
    TablesStep(s, t, ok);
    MoverOwes(s, t, ok);
  }

  lemma KeepsWritten(s: State, t: nat, ok: bool, table: Table, sid: nat)
    requires Enabled(s, t) && WrittenOk(s, table, sid) && PcOk(s, s.threads[t]) && RemoverOk(s, s.threads[t])
    ensures WrittenOk(Exec(s, t, ok), table, sid)
  {
    var pc := s.threads[t];
    if Adds(pc) {
    } else if Removes(pc) {
    } else {
      OtherTablesStep(s, t, ok);
    }
  }

  lemma StepKeepsInv(s: State, t: nat, ok: bool)
    requires Inv(s) && Enabled(s, t)
    ensures Inv(Exec(s, t, ok))
  {
    var s' := Exec(s, t, ok);
    assert PcOk(s, s.threads[t]) && RemoverOk(s, s.threads[t]);
    forall u | 0 <= u < |s.threads| && Adds(s.threads[u])
      ensures s.threads[u].sid < s.nextSid
    {
      assert PcOk(s, s.threads[u]);
    }
    KeepsAdds(s, t, ok);
    KeepsCells(s, t, ok);
    KeepsStates(s, t, ok);
    forall sid
      ensures GateOk(s', sid) && TablesOk(s', sid)
    {
      KeepsGate(s, t, ok, sid);
      KeepsTables(s, t, ok, sid);
    }
    forall table, sid
      ensures WrittenOk(s', table, sid)
    {
      KeepsWritten(s, t, ok, table, sid);
    }
    forall u | 0 <= u < |s'.threads|
      ensures PcOk(s', s'.threads[u]) && RemoverOk(s', s'.threads[u])
    {
      KeepsPc(s, t, ok, u);
      KeepsRemover(s, t, ok, u);
    }
  }

  // ---------- what every run keeps ----------

  lemma InvOfRun(run: seq<State>)
    requires IsRun(Init, Next, run)
    ensures forall i :: 0 <= i < |run| ==> Inv(run[i])
  {
    forall s | Init(s)
      ensures Inv(s)
    {
      InitHasInv(s);
    }
    forall s, s' | Inv(s) && Next(s, s')
      ensures Inv(s')
    {
      var t, ok :| Enabled(s, t) && s' == Exec(s, t, ok);
      StepKeepsInv(s, t, ok);
    }
    InvariantOfRun(Init, Next, Inv, run);
  }

  lemma InitHasInv(s: State)
    requires Init(s)
    ensures Inv(s)
  {
    forall sid
      ensures GateOk(s, sid)
    {
      SumZero(AboutToAnnounce(sid), s.threads);
      SumZero(Closers(sid), s.threads);
    }
  }

  /** A call has passed the gate of a session and is about to send the event. */
  ghost predicate SomeoneAnnounces(s: State, sid: nat) {
    exists t :: 0 <= t < |s.threads| && s.threads[t].Announce? && s.threads[t].sid == sid
  }

  /**
  Of all the close and force-close calls on a session, at most one passes the gate; it sends the one
  ConnectionClosed event, and every call that was refused came after it.
  */
  lemma ClosedAtMostOnce(run: seq<State>, i: nat, sid: nat)
    requires IsRun(Init, Next, run) && i < |run|
    ensures CloseEvents(run[i].events, sid) <= 1
    ensures CloseEvents(run[i].events, sid) == 1 <==> sid in run[i].passed && !SomeoneAnnounces(run[i], sid)
    ensures forall t, u | 0 <= t < u < |run[i].threads| ::
              !(Closes(run[i].threads[t], sid) && Closes(run[i].threads[u], sid))
    ensures Finished(Refused, sid) in run[i].threads ==> sid in run[i].passed
  {
    InvOfRun(run);
    var s := run[i];
    assert GateOk(s, sid);
    forall t, u | 0 <= t < u < |s.threads|
      ensures !(Closes(s.threads[t], sid) && Closes(s.threads[u], sid))
    {
      if Closes(s.threads[t], sid) {
        CloserIsAlone(s, t, u);
      }
    }
    if t :| 0 <= t < |s.threads| && s.threads[t].Announce? && s.threads[t].sid == sid {
      SumAtLeast(AboutToAnnounce(sid), s.threads, t);
    } else {
      SumZero(AboutToAnnounce(sid), s.threads);
    }
    if Finished(Refused, sid) in s.threads {
      var t :| 0 <= t < |s.threads| && s.threads[t] == Finished(Refused, sid);
      assert PcOk(s, s.threads[t]);
    }
  }

  /** What should_ignore_messages answers: an unknown session, or one that is not Connected. */
  ghost predicate IgnoresMessages(s: State, sid: nat)
    requires StatesOk(s)
  {
    sid in s.states ==> s.cells[s.states[sid]].state != Connected
  }

  /** Messages are ignored for exactly the sessions that are not in the state table or whose gate was passed. */
  lemma IgnoredExactlyWhenClosing(run: seq<State>, i: nat, sid: nat)
    requires IsRun(Init, Next, run) && i < |run|
    ensures StatesOk(run[i])
    ensures IgnoresMessages(run[i], sid) <==> sid !in run[i].states || sid in run[i].passed
  {
    InvOfRun(run);
  }

  /** Where a session is in its life: unknown, Connected, Closing, Closed, out of the state table for good. */
  ghost function Stage(s: State, sid: nat): nat
    requires StatesOk(s)
  {
    if sid !in s.states then (if sid in s.added then 4 else 0)
    else match s.cells[s.states[sid]].state
      case Connected => 1
      case Closing => 2
      case Closed => 3
  }

  lemma StepMovesForward(s: State, t: nat, ok: bool, sid: nat)
    requires Inv(s) && Enabled(s, t) && StatesOk(Exec(s, t, ok))
    ensures Stage(s, sid) <= Stage(Exec(s, t, ok), sid)
    ensures Stage(Exec(s, t, ok), sid) <= Stage(s, sid) + 1 || Stage(Exec(s, t, ok), sid) == 4
  {
    assert PcOk(s, s.threads[t]) && RemoverOk(s, s.threads[t]) && TablesOk(s, sid);
    if Adds(s.threads[t]) || s.threads[t].Unstarted? {
    } else if IsCloser(s.threads[t]) || s.threads[t].LockGate? {
    } else {
    }
  }

  lemma StatesAlongRun(run: seq<State>, i: nat)
    requires IsRun(Init, Next, run) && i < |run|
    ensures StatesOk(run[i])
  {
    InvOfRun(run);
  }

  /** A session's state only moves Connected, Closing, Closed, removed; no stage comes back. */
  lemma {:induction false} StagesOnlyAdvance(run: seq<State>, i: nat, j: nat, sid: nat)
    requires IsRun(Init, Next, run) && i <= j < |run|
    ensures StatesOk(run[i]) && StatesOk(run[j])
    ensures Stage(run[i], sid) <= Stage(run[j], sid)
    ensures j == i + 1 ==> Stage(run[j], sid) <= Stage(run[i], sid) + 1 || Stage(run[j], sid) == 4
    decreases j - i
  {
    hide Inv, Exec, Enabled;
    InvOfRun(run);
    StatesAlongRun(run, i);
    StatesAlongRun(run, j);
    if i < j {
      StagesOnlyAdvance(run, i, j - 1, sid);
      assert Next(run[j - 1], run[j - 1 + 1]);
      var t, ok :| Enabled(run[j - 1], t) && run[j] == Exec(run[j - 1], t, ok);
      StepMovesForward(run[j - 1], t, ok, sid);
    }
  }

  /** No call is between two of its table accesses on this session. */
  ghost predicate TablesAtRest(s: State, sid: nat) {
    forall t :: 0 <= t < |s.threads| ==>
      var pc := s.threads[t];
      !(Adds(pc) && pc.sid == sid) && pc != RemoveStats(sid) && pc != RemoveState(sid)
  }

  /**
  As long as no table write of a session has given up, the three tables agree on it whenever no add or remove of
  it is under way, and once a call has removed it, it is in none of them.
  */
  lemma TablesAgreeAtRest(run: seq<State>, i: nat, sid: nat)
    requires IsRun(Init, Next, run) && i < |run| && sid !in run[i].gaveUp
    ensures TablesAtRest(run[i], sid) ==>
            (sid in run[i].transports <==> sid in run[i].stats) && (sid in run[i].stats <==> sid in run[i].states)
    ensures Finished(Removed, sid) in run[i].threads ==> Gone(run[i], sid)
  {
    InvOfRun(run);
    var s := run[i];
    assert TablesOk(s, sid);
    if Finished(Removed, sid) in s.threads {
      var t :| 0 <= t < |s.threads| && s.threads[t] == Finished(Removed, sid);
      assert RemoverOk(s, s.threads[t]);
    }
  }

  // ---------- a write that gives up ----------

  /**
  At any time, whatever gave up, a session is in a table exactly if the write of its add to that table went through
  and no remove's did. So a later remove repairs an earlier one that gave up, but nothing repairs an add.
  */
  lemma InTableExactlyWhenWritten(run: seq<State>, i: nat, table: Table, sid: nat)
    requires IsRun(Init, Next, run) && i < |run|
    ensures InTable(run[i], table, sid) <==> (table, sid) in run[i].put && (table, sid) !in run[i].taken
  {
    hide CellsOk, StatesOk, AddsOk, GateOk, TablesOk, PcOk, RemoverOk, Exec, Enabled, Init;
    InvOfRun(run);
    assert WrittenOk(run[i], table, sid);
  }

  /** So the tables agree on a session exactly if the same of these writes went through, or undid, in all three. */
  lemma TablesAgreeExactlyWhen(run: seq<State>, i: nat, sid: nat)
    requires IsRun(Init, Next, run) && i < |run|
    ensures (forall a, b :: InTable(run[i], a, sid) <==> InTable(run[i], b, sid)) <==>
            (forall table :: Kept(run[i], table, sid)) || (forall table :: !Kept(run[i], table, sid))
  {
    forall table
      ensures InTable(run[i], table, sid) <==> Kept(run[i], table, sid)
    {
      InTableExactlyWhenWritten(run, i, table, sid);
    }
    if forall a, b :: InTable(run[i], a, sid) <==> InTable(run[i], b, sid) {
      assert forall table :: InTable(run[i], table, sid) <==> InTable(run[i], States, sid);
    }
  }

  /** Its add was written and no remove was. */
  ghost predicate Kept(s: State, table: Table, sid: nat) {
    (table, sid) in s.put && (table, sid) !in s.taken
  }

  /** A session whose add returned without a state for it. */
  ghost predicate AddedWithoutState(s: State, sid: nat) {
    && sid in s.added && sid !in s.passed
    && forall c :: 0 <= c < |s.cells| ==> s.cells[c].sid != sid
  }

  lemma StaysWithoutState(s: State, t: nat, ok: bool, sid: nat)
    requires Inv(s) && Enabled(s, t) && AddedWithoutState(s, sid)
    ensures AddedWithoutState(Exec(s, t, ok), sid)
  {
    assert PcOk(s, s.threads[t]);
  }

  /** If the state write of an add gives up, the session can never be closed: no call passes its gate. */
  lemma {:induction false} WithoutStateNeverCloses(run: seq<State>, i: nat, j: nat, sid: nat)
    requires IsRun(Init, Next, run) && i <= j < |run| && AddedWithoutState(run[i], sid)
    ensures AddedWithoutState(run[j], sid) && sid !in run[j].states && CloseEvents(run[j].events, sid) == 0
    decreases j - i
  {
    hide Exec, Enabled, GateOk, TablesOk, PcOk, RemoverOk, AddsOk;
    InvOfRun(run);
    if i < j {
      WithoutStateNeverCloses(run, i, j - 1, sid);
      assert Next(run[j - 1], run[j - 1 + 1]);
      var t, ok :| Enabled(run[j - 1], t) && run[j] == Exec(run[j - 1], t, ok);
      StaysWithoutState(run[j - 1], t, ok, sid);
    }
    ClosedAtMostOnce(run, j, sid);
  }

  lemma Continue(run: seq<State>, t: nat, ok: bool) returns (longer: seq<State>)
    requires IsRun(Init, Next, run) && Enabled(run[|run| - 1], t)
    ensures IsRun(Init, Next, longer)
    ensures longer[|longer| - 1] == Exec(run[|run| - 1], t, ok)
  {
    longer := run + [Exec(run[|run| - 1], t, ok)];
    forall i | 0 <= i < |longer| - 1
      ensures Next(longer[i], longer[i + 1])
    {
      assert i < |run| - 1 ==> Next(run[i], run[i + 1]);
    }
  }

  /** The condition is needed: here all calls have returned, and two tables keep a session that cannot be closed. */
  lemma GivenUpWriteLeavesTablesApart() returns (run: seq<State>)
    ensures IsRun(Init, Next, run)
    ensures var s := run[|run| - 1];
      && s.threads == [Finished(Added, 0), Finished(NoSuchSession, 0)]
      && 0 in s.transports && 0 in s.stats && 0 !in s.states && AddedWithoutState(s, 0)
  {
    run := [State({}, {}, map[], [], 0, [Unstarted(Add), Unstarted(Close(0, false))], [], {}, {}, {}, {}, {}, {})];
    run := Continue(run, 0, true);
    run := Continue(run, 0, true);
    run := Continue(run, 0, true);
    run := Continue(run, 0, false);
    assert run[|run| - 1].threads == [Finished(Added, 0), Unstarted(Close(0, false))];
    run := Continue(run, 1, true);
    run := Continue(run, 1, true);
  }
}
