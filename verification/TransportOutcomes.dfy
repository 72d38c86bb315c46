/**
What the calls on one transport come to: which answer a send reports, whose connection it used, how often a session
can be closed, and whose session a close clears. Except where it is said, connects and closes need not stay apart.
*/
module TransportOutcomes {
  import opened Prelude
  import opened Runs
  import opened TransportLocks

  /** A transport with what an observer notes: the connections' answers to sends, and openings and passings of gates. */
  datatype Watched = Watched(
    locks: State,
    answered: map<nat, bool>,
    opens: multiset<nat>,
    passes: multiset<nat>)

  ghost predicate WatchedInit(w: Watched) {
    Init(w.locks) && w.answered == map[] && w.opens == w.passes == multiset{}
  }

  /** A close that has passed the gate of its session. */
  ghost predicate PassesGate(pc: Pc, pc': Pc) {
    pc.Gate? && !pc'.Finished?
  }

  ghost function Watch(w: Watched, step: Step): Watched
    requires Enabled(false, w.locks, step)
  {
    var pc := w.locks.threads[step.t];
    var locks := Exec(false, w.locks, step);
    Watched(
      locks,
      if pc.Sending? then w.answered[step.t := step.ok] else w.answered,
      if pc.OpenGate? && step.ok then w.opens + multiset{pc.sid} else w.opens,
      if step.t < |locks.threads| && PassesGate(pc, locks.threads[step.t]) then w.passes + multiset{pc.sid}
      else w.passes)
  }

  ghost predicate WatchedNext(w: Watched, w': Watched) {
    exists step :: Enabled(false, w.locks, step) && w' == Watch(w, step)
  }

  ghost predicate WatchedRun(run: seq<Watched>) {
    IsRun(WatchedInit, WatchedNext, run)
  }

  // ---------- the invariants ----------

  ghost predicate AnswerOk(w: Watched, t: nat)
    requires t < |w.locks.threads|
  {
    && (w.locks.threads[t] == Finished(Sent) <==> t in w.answered && w.answered[t])
    && (w.locks.threads[t] == Finished(SendFailed) <==> t in w.answered && !w.answered[t])
  }

  ghost predicate AnswersOk(w: Watched) {
    && (forall t :: 0 <= t < |w.locks.threads| ==> AnswerOk(w, t))
    && (forall t :: t in w.answered ==> t < |w.locks.threads|)
  }

  /** Behind every passing of a gate there is an opening of its own; an open gate has one to spare. */
  ghost predicate GateOk(w: Watched, sid: nat) {
    w.passes[sid] + (if sid in w.locks.gates && w.locks.gates[sid].GateConnected? then 1 else 0) <= w.opens[sid]
  }

  /** A close that has marked its session closed. */
  ghost predicate PastMark(pc: Pc) {
    pc.CompareSession? || pc.ClearSession? || pc.ClearAdapter?
  }

  ghost predicate BetweenGateAndMark(pc: Pc) {
    pc.CloseAdapter? || pc.CloseConnection? || pc.Closing? || pc.MarkClosed?
  }

  ghost predicate MarkOk(w: Watched, pc: Pc) {
    && (BetweenGateAndMark(pc) || PastMark(pc) ==> w.passes[pc.sid] > 0 && pc.sid in w.locks.gates)
    && (PastMark(pc) ==> w.locks.gates[pc.sid].GateClosed? || w.opens[pc.sid] > 1)
  }

  /** Whoever holds a guard finds what it guards, as it was when it was taken. */
  ghost predicate GuardOk(s: State, pc: Pc) {
    && (HoldsSession(pc) ==> s.session.Some?)
    && (HoldsAdapter(pc) ==> s.adapter == Some(pc.conn))
  }

  ghost predicate GuardsOk(s: State) {
    LocksOk(s) && forall t :: 0 <= t < |s.threads| ==> GuardOk(s, s.threads[t])
  }

  ghost predicate WatchedInv(w: Watched) {
    && AnswersOk(w)
    && (forall sid :: GateOk(w, sid))
    && (forall t :: 0 <= t < |w.locks.threads| ==> MarkOk(w, w.locks.threads[t]))
    && GuardsOk(w.locks)
  }

  // ---------- each step keeps them ----------

  lemma SentWasAnswered(s: State, step: Step)
    requires Enabled(false, s, step)
    ensures var pc, pc' := s.threads[step.t], Exec(false, s, step).threads[step.t];
      && !pc.Finished?
      && (pc' == Finished(Sent) <==> pc.Sending? && step.ok)
      && (pc' == Finished(SendFailed) <==> pc.Sending? && !step.ok)
  {
    var pc := s.threads[step.t];
    if pc.Unstarted? {
    } else if IsClosing(pc) {
    } else if IsConnecting(pc) {
    } else {
    }
  }

  lemma KeepsAnswers(w: Watched, step: Step)
    requires AnswersOk(w) && Enabled(false, w.locks, step)
    ensures AnswersOk(Watch(w, step))
  {
    hide Exec;
    MovesAreFinite(false, w.locks, step);
    SentWasAnswered(w.locks, step);
    var w' := Watch(w, step);
    forall t | 0 <= t < |w'.locks.threads|
      ensures AnswerOk(w', t)
    {
      assert AnswerOk(w, t);
    }
  }

  /** Gates change only when one is opened, passed or marked closed. */
  lemma GatesStep(s: State, step: Step)
    requires Enabled(false, s, step)
    ensures var pc, s' := s.threads[step.t], Exec(false, s, step);
      if pc.OpenGate? && step.ok then s'.gates == s.gates[pc.sid := GateConnected]
      else if pc.Gate? && PassesGate(pc, s'.threads[step.t]) then
        pc.sid in s.gates && s.gates[pc.sid].GateConnected? && s'.gates == s.gates[pc.sid := GateClosing]
      else if pc.MarkClosed? && pc.sid in s.gates then s'.gates == s.gates[pc.sid := GateClosed]
      else s'.gates == s.gates
  {
    var pc := s.threads[step.t];
    if pc.Unstarted? {
    } else if IsClosing(pc) {
    } else if IsConnecting(pc) {
    } else {
    }
  }

  lemma KeepsGate(w: Watched, step: Step, sid: nat)
    requires GateOk(w, sid) && Enabled(false, w.locks, step)
    ensures GateOk(Watch(w, step), sid)
  {
    MovesAreFinite(false, w.locks, step);
    GatesStep(w.locks, step);
    hide Exec;
  }

  /** Where a step takes a close. */
  lemma CloseStep(s: State, step: Step)
    requires Enabled(false, s, step)
    ensures var pc, pc' := s.threads[step.t], Exec(false, s, step).threads[step.t];
      && (BetweenGateAndMark(pc') ==>
            (BetweenGateAndMark(pc) && pc'.sid == pc.sid) || (PassesGate(pc, pc') && pc'.sid == pc.sid))
      && (PastMark(pc') ==> (PastMark(pc) || pc.MarkClosed?) && pc'.sid == pc.sid)
  {
    var pc := s.threads[step.t];
    if pc.Unstarted? {
    } else if IsClosing(pc) {
    } else if IsConnecting(pc) {
    } else {
    }
  }

  lemma OtherMarkOk(w: Watched, step: Step, other: Pc)
    requires Enabled(false, w.locks, step) && MarkOk(w, other) && IsClosing(other) && !other.Gate?
    requires GateOk(w, other.sid)
    ensures MarkOk(Watch(w, step), other)
  {
    MovesAreFinite(false, w.locks, step);
    GatesStep(w.locks, step);
    hide Exec;
  }

  lemma MoverMarkOk(w: Watched, step: Step)
    requires Enabled(false, w.locks, step) && MarkOk(w, w.locks.threads[step.t])
    requires IsClosing(w.locks.threads[step.t]) ==> GateOk(w, w.locks.threads[step.t].sid)
    ensures MarkOk(Watch(w, step), Exec(false, w.locks, step).threads[step.t])
  {
    MovesAreFinite(false, w.locks, step);
    GatesStep(w.locks, step);
    CloseStep(w.locks, step);
    hide Exec;
  }

  lemma KeepsMarks(w: Watched, step: Step, u: nat)
    requires WatchedInv(w) && Enabled(false, w.locks, step) && u < |w.locks.threads|
    ensures var threads := Exec(false, w.locks, step).threads;
      u < |threads| && MarkOk(Watch(w, step), threads[u])
  {
    MovesAreFinite(false, w.locks, step);
    hide Exec, GuardsOk, AnswersOk;
    var pc, other := w.locks.threads[step.t], w.locks.threads[u];
    assert MarkOk(w, pc) && MarkOk(w, other);
    if u == step.t {
      if IsClosing(pc) {
        assert GateOk(w, pc.sid);
      }
      MoverMarkOk(w, step);
    } else if IsClosing(other) && !other.Gate? {
      assert GateOk(w, other.sid);
      OtherMarkOk(w, step, other);
    }
  }

  lemma OtherGuardOk(s: State, step: Step, other: Pc)
    requires Enabled(false, s, step) && GuardOk(s, other)
    requires HoldsSession(other) ==> s.sessionLock.Some?
    requires HoldsAdapter(other) ==> s.adapterLock.Some?
    ensures GuardOk(Exec(false, s, step), other)
  {
    var pc := s.threads[step.t];
    if pc.Unstarted? {
    } else if IsClosing(pc) {
    } else if IsConnecting(pc) {
    } else {
    }
  }

  lemma MoverGuardOk(s: State, step: Step)
    requires Enabled(false, s, step) && GuardOk(s, s.threads[step.t])
    ensures GuardOk(Exec(false, s, step), Exec(false, s, step).threads[step.t])
  {
    var pc := s.threads[step.t];
    if pc.Unstarted? {
    } else if IsClosing(pc) {
    } else if IsConnecting(pc) {
    } else {
    }
  }

  lemma KeepsGuards(s: State, step: Step)
    requires GuardsOk(s) && Enabled(false, s, step)
    ensures GuardsOk(Exec(false, s, step))
  {
    hide Exec;
    KeepsLocks(false, s, step);
    MovesAreFinite(false, s, step);
    forall u | 0 <= u < |s.threads|
      ensures GuardOk(Exec(false, s, step), Exec(false, s, step).threads[u])
    {
      assert GuardOk(s, s.threads[step.t]) && GuardOk(s, s.threads[u]);
      if u == step.t {
        MoverGuardOk(s, step);
      } else {
        assert HoldsSession(s.threads[u]) <==> s.sessionLock == Some(u);
        assert HoldsAdapter(s.threads[u]) <==> s.adapterLock == Some(u);
        OtherGuardOk(s, step, s.threads[u]);
      }
    }
  }

  lemma KeepsWatchedInv(w: Watched, step: Step)
    requires WatchedInv(w) && Enabled(false, w.locks, step)
    ensures WatchedInv(Watch(w, step))
  {
    hide Exec, AnswersOk, GateOk, MarkOk, GuardsOk;
    KeepsAnswers(w, step);
    KeepsGuards(w.locks, step);
    MovesAreFinite(false, w.locks, step);
    var w' := Watch(w, step);
    forall sid
      ensures GateOk(w', sid)
    {
      KeepsGate(w, step, sid);
    }
    forall u | 0 <= u < |w'.locks.threads|
      ensures MarkOk(w', w'.locks.threads[u])
    {
      KeepsMarks(w, step, u);
    }
  }

  lemma InvOfWatchedRun(run: seq<Watched>, n: nat)
    requires WatchedRun(run) && n < |run|
    ensures WatchedInv(run[n])
  {
    hide Exec, Enabled, AnswersOk, GateOk, MarkOk, GuardsOk;
    forall w | WatchedInit(w)
      ensures WatchedInv(w)
    {
      StartsInvariant(w);
    }
    forall w, w' | WatchedInv(w) && WatchedNext(w, w')
      ensures WatchedInv(w')
    {
      var step :| Enabled(false, w.locks, step) && w' == Watch(w, step);
      KeepsWatchedInv(w, step);
    }
    InvariantOfRun(WatchedInit, WatchedNext, WatchedInv, run);
  }

  lemma StartsInvariant(w: Watched)
    requires WatchedInit(w)
    ensures WatchedInv(w)
  {
  }

  // ---------- every run ----------

  /**
  A send reports success exactly if the connection it asked accepted the packet, and failure exactly if that
  connection refused it; and the connection it asks is the transport's own until it has answered.
  */
  lemma SendReportsAnswer(run: seq<Watched>, n: nat, t: nat)
    requires WatchedRun(run) && n < |run| && t < |run[n].locks.threads|
    ensures var pc := run[n].locks.threads[t];
      && (pc == Finished(Sent) <==> t in run[n].answered && run[n].answered[t])
      && (pc == Finished(SendFailed) <==> t in run[n].answered && !run[n].answered[t])
      && (pc.Sending? ==> run[n].locks.session.Some? && run[n].locks.adapter == Some(pc.conn))
      && (pc.Closing? ==> run[n].locks.adapter == Some(pc.conn))
  {
    InvOfWatchedRun(run, n);
    assert AnswerOk(run[n], t) && GuardOk(run[n].locks, run[n].locks.threads[t]);
  }

  /**
  However connects and closes interleave, a session is closed at most as often as it was connected: each close that
  passes the gate uses up an opening. And unless it was connected again, a session stays closed behind its close.
  */
  lemma ClosedAtMostAsOftenAsOpened(run: seq<Watched>, n: nat, sid: nat)
    requires WatchedRun(run) && n < |run|
    ensures run[n].passes[sid] <= run[n].opens[sid]
    ensures forall t :: 0 <= t < |run[n].locks.threads| ==>
              var pc := run[n].locks.threads[t];
              pc == CompareSession(sid) || pc == ClearSession(sid) || pc == ClearAdapter(sid) ==>
                run[n].opens[sid] > 1 || (sid in run[n].locks.gates && run[n].locks.gates[sid].GateClosed?)
  {
    InvOfWatchedRun(run, n);
    assert GateOk(run[n], sid);
    forall t | 0 <= t < |run[n].locks.threads|
      ensures MarkOk(run[n], run[n].locks.threads[t])
    {
    }
  }

  /** While a call holds the guard of the session or of the adapter, what it guards stays as it is. */
  lemma GuardedStays(run: seq<Watched>, n: nat)
    requires WatchedRun(run) && n + 1 < |run|
    ensures var s, s' := run[n].locks, run[n + 1].locks;
      && ((exists t :: 0 <= t < |s.threads| && HoldsSession(s.threads[t])) ==> s'.session == s.session)
      && ((exists t :: 0 <= t < |s.threads| && HoldsAdapter(s.threads[t])) ==> s'.adapter == s.adapter)
  {
    InvOfWatchedRun(run, n);
    assert WatchedNext(run[n], run[n + 1]);
    var step :| Enabled(false, run[n].locks, step) && run[n + 1] == Watch(run[n], step);
    LockedStays(run[n].locks, step);
  }

  lemma LockedStays(s: State, step: Step)
    requires Enabled(false, s, step)
    ensures s.sessionLock.Some? ==> Exec(false, s, step).session == s.session
    ensures s.adapterLock.Some? ==> Exec(false, s, step).adapter == s.adapter
  {
    var pc := s.threads[step.t];
    if pc.Unstarted? {
    } else if IsClosing(pc) {
    } else if IsConnecting(pc) {
    } else {
    }
  }

  // With the discipline, a close clears no session but its own.

  ghost predicate ClearsOwn(s: State, pc: Pc) {
    pc.ClearSession? ==> s.session == None || s.session == Some(pc.sid)
  }

  ghost predicate ClearsInv(s: State) {
    Inv(s) && forall t :: 0 <= t < |s.threads| ==> ClearsOwn(s, s.threads[t])
  }

  lemma SessionStep(s: State, step: Step)
    requires Enabled(true, s, step)
    ensures var pc, s' := s.threads[step.t], Exec(true, s, step);
      && s'.session == (if pc.SetSession? then Some(pc.sid) else if pc.ClearSession? then None else s.session)
      && (s'.threads[step.t].ClearSession? ==> pc.CompareSession? && s.session == Some(s'.threads[step.t].sid))
  {
    var pc := s.threads[step.t];
    if pc.Unstarted? {
    } else if IsClosing(pc) {
    } else if IsConnecting(pc) {
    } else {
    }
  }

  lemma KeepsClears(s: State, step: Step)
    requires ClearsInv(s) && Enabled(true, s, step)
    ensures ClearsInv(Exec(true, s, step))
  {
    hide Exec, Inv;
    StepKeepsInv(s, step);
    SessionStep(s, step);
    MovesAreFinite(true, s, step);
    StayApart(s);
    forall u | 0 <= u < |s.threads|
      ensures ClearsOwn(Exec(true, s, step), Exec(true, s, step).threads[u])
    {
      assert ClearsOwn(s, s.threads[u]);
    }
  }

  lemma StayApart(s: State)
    requires Inv(s)
    ensures forall t, u | 0 <= t < |s.threads| && 0 <= u < |s.threads| ::
              !(IsClosing(s.threads[t]) && IsConnecting(s.threads[u]))
  {
    forall t, u | 0 <= t < |s.threads| && 0 <= u < |s.threads|
      ensures !(IsClosing(s.threads[t]) && IsConnecting(s.threads[u]))
    {
      assert IsClosing(s.threads[t]) ==> AnyClosing(s);
      assert IsConnecting(s.threads[u]) ==> AnyConnecting(s);
    }
  }

  /**
  While connects and closes stay apart, the session id of a transport changes only by a connect, or to none by a
  close of that very session.
  */
  lemma CloseClearsOnlyItsSession(run: seq<State>, n: nat, sid: nat)
    requires LockRun(true, run) && n + 1 < |run| && run[n].session == Some(sid) && run[n + 1].session != Some(sid)
    ensures exists t :: 0 <= t < |run[n].threads|
              && (run[n].threads[t].SetSession?
                  || (run[n].threads[t] == ClearSession(sid) && run[n + 1].session == None))
  {
    hide Exec, Inv;
    forall s, s' | ClearsInv(s) && Next(true, s, s')
      ensures ClearsInv(s')
    {
      var step :| Enabled(true, s, step) && s' == Exec(true, s, step);
      KeepsClears(s, step);
    }
    forall s | Init(s)
      ensures ClearsInv(s)
    {
      StartsClear(s);
    }
    InvariantOfRun(Init, (s: State, s': State) => Next(true, s, s'), ClearsInv, run);
    var s, s' := run[n], run[n + 1];
    assert Next(true, s, s');
    var step :| Enabled(true, s, step) && s' == Exec(true, s, step);
    SessionStep(s, step);
    assert ClearsOwn(s, s.threads[step.t]);
  }

  lemma StartsClear(s: State)
    requires Init(s)
    ensures ClearsInv(s)
  {
  }
}
