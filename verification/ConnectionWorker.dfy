/**
The lock-free connection. Callers put commands into an unbounded channel and await a one-shot reply; one
worker task drains the channel, performs each command on the underlying connection, counts it and replies.
The calls interleave with the worker at every step, and what the underlying connection answers is arbitrary.
*/
module ConnectionWorker {
  import opened Prelude
  import opened Counting
  import opened PacketCodec
  import opened Runs
  import opened Words

  datatype Command = Send(packet: Packet) | Close | Flush | IsConnected | GetConnectionInfo

  datatype Outcome = Success | Failure | Timeout

  /** What a caller gets: the worker's reply, or a reply channel the worker dropped, or a closed command channel. */
  datatype Answer = Returned(outcome: Outcome) | ChannelClosed | ConnectionClosed

  /** A command in the channel, with the way back to the caller that sent it. */
  datatype Ticket = Ticket(id: nat, caller: nat, command: Command)

  datatype Performed = Performed(ticket: Ticket, outcome: Outcome)

  datatype Reply = Reply(id: nat, answer: Answer)

  datatype Phase =
    | Receiving
    | Executing(ticket: Ticket)
    | Counting(done: Performed)
    | Replying(done: Performed)
    | Announcing
    | Leaving
    | Exited

  datatype CallState = Spawned | Awaiting(id: nat) | Finished(ticket: Option<nat>, answer: Answer)

  datatype Call = Call(command: Command, state: CallState)

  datatype Stats = Stats(packetsSent: nat, bytesSent: nat, sendFailures: nat)

  /** `accepted` and `performed`, the commands that entered the channel and those carried out, only observe. */
  datatype State = State(
    calls: seq<Call>,
    queue: seq<Ticket>,
    phase: Phase,
    replies: seq<Reply>,
    stats: Stats,
    connected: bool,
    closedEvents: nat,
    accepted: seq<Ticket>,
    performed: seq<Performed>)

  datatype Step =
    | Submit(caller: nat)
    | Collect(caller: nat)
    | Receive
    | Execute(outcome: Outcome)
    | Count
    | Answer
    | Announce
    | Leave
    | Abandoned

  ghost predicate Init(s: State) {
    && s.queue == [] && s.phase == Receiving && s.replies == [] && s.stats == Stats(0, 0, 0)
    && s.connected && s.closedEvents == 0 && s.accepted == [] && s.performed == []
    && forall c :: 0 <= c < |s.calls| ==> s.calls[c].state.Spawned?
  }

  /** The status queries cannot fail and carry no timeout. */
  predicate Possible(command: Command, outcome: Outcome) {
    command.IsConnected? || command.GetConnectionInfo? ==> outcome.Success?
  }

  /** The worker stops after a close that succeeded or timed out, and goes on after one that failed. */
  predicate Ends(command: Command, outcome: Outcome) {
    command.Close? && !outcome.Failure?
  }

  function Record(stats: Stats, command: Command, outcome: Outcome): Stats {
    if !command.Send? then stats
    else if outcome.Success? then
      stats.(packetsSent := (stats.packetsSent + 1) % WORD,
             bytesSent := (stats.bytesSent + |command.packet.payload|) % WORD)
    else stats.(sendFailures := (stats.sendFailures + 1) % WORD)
  }

  ghost predicate Enabled(s: State, step: Step) {
    match step
    case Submit(c) => c < |s.calls| && s.calls[c].state.Spawned?
    case Collect(c) => c < |s.calls| && s.calls[c].state.Awaiting? && s.calls[c].state.id < |s.replies|
    case Receive => s.phase.Receiving? && s.queue != []
    case Execute(outcome) => s.phase.Executing? && Possible(s.phase.ticket.command, outcome)
    case Count => s.phase.Counting?
    case Answer => s.phase.Replying?
    case Announce => s.phase.Announcing?
    case Leave => s.phase.Leaving?
    // every handle is gone and the channel is drained
    case Abandoned =>
      s.phase.Receiving? && s.queue == [] && forall c :: 0 <= c < |s.calls| ==> s.calls[c].state.Finished?
  }

  function Drop(queue: seq<Ticket>): seq<Reply> {
    seq(|queue|, k requires 0 <= k < |queue| => Reply(queue[k].id, ChannelClosed))
  }

  function AfterReply(done: Performed): Phase {
    if !Ends(done.ticket.command, done.outcome) then Receiving
    else if done.outcome.Success? then Announcing
    else Leaving
  }

  ghost function Exec(s: State, step: Step): State
    requires Enabled(s, step)
  {
    match step
    case Submit(c) =>
      var ticket := Ticket(|s.accepted|, c, s.calls[c].command);
      if s.phase.Exited? then s.(calls := s.calls[c := s.calls[c].(state := Finished(None, ConnectionClosed))])
      else
        s.(calls := s.calls[c := s.calls[c].(state := Awaiting(ticket.id))],
           queue := s.queue + [ticket], accepted := s.accepted + [ticket])
    case Collect(c) =>
      var id := s.calls[c].state.id;
      var answer := s.replies[id].answer;
      s.(calls := s.calls[c := s.calls[c].(state := Finished(Some(id), answer))],
         connected := s.connected && !(s.calls[c].command.Close? && answer == Returned(Success)))
    case Receive => s.(queue := s.queue[1..], phase := Executing(s.queue[0]))
    case Execute(outcome) =>
      var done := Performed(s.phase.ticket, outcome);
      s.(performed := s.performed + [done], phase := Counting(done))
    case Count =>
      var done := s.phase.done;
      s.(stats := Record(s.stats, done.ticket.command, done.outcome), phase := Replying(done))
    case Answer =>
      var done := s.phase.done;
      s.(replies := s.replies + [Reply(done.ticket.id, Returned(done.outcome))], phase := AfterReply(done))
    case Announce => s.(closedEvents := s.closedEvents + 1, phase := Leaving)
    // dropping the channel drops the commands left in it, and with them their reply channels
    case Leave => s.(replies := s.replies + Drop(s.queue), queue := [], phase := Exited)
    case Abandoned => s.(phase := Exited)
  }

  ghost predicate Next(s: State, s': State) {
    exists step :: Enabled(s, step) && s' == Exec(s, step)
  }

  // ---------- what the worker keeps ----------

  /** The channel holds the accepted commands that have not been received, in order. */
  ghost predicate QueueOk(s: State) {
    && (forall k :: 0 <= k < |s.accepted| ==> s.accepted[k].id == k)
    && (if s.phase.Exited? then s.queue == [] && |s.performed| <= |s.accepted|
        else
          var taken := |s.performed| + (if s.phase.Executing? then 1 else 0);
          taken <= |s.accepted| && s.queue == s.accepted[taken..])
    && (s.phase.Executing? ==> s.phase.ticket == s.accepted[|s.performed|])
  }

  ghost predicate Fits(p: Performed, ticket: Ticket) {
    p.ticket == ticket && Possible(ticket.command, p.outcome)
  }

  ghost predicate PerformedOk(s: State) {
    && |s.performed| <= |s.accepted|
    && (forall k :: 0 <= k < |s.performed| ==> Fits(s.performed[k], s.accepted[k]))
    && (s.phase.Counting? || s.phase.Replying? ==> |s.performed| > 0 && s.phase.done == s.performed[|s.performed| - 1])
  }

  ghost predicate IsEnd(p: Performed) {
    Ends(p.ticket.command, p.outcome)
  }

  /** A close that ends the worker is the last thing it performs. */
  ghost predicate EndsOk(s: State) {
    && (forall k :: 0 <= k < |s.performed| && IsEnd(s.performed[k]) ==>
          k == |s.performed| - 1 && !s.phase.Receiving? && !s.phase.Executing?)
    && (s.phase.Announcing? || s.phase.Leaving? ==> |s.performed| > 0 && IsEnd(s.performed[|s.performed| - 1]))
    && (s.phase.Announcing? ==> s.performed[|s.performed| - 1].outcome.Success?)
    && LeftBehindOk(s)
  }

  /** Accepted commands are left behind only by a worker that has performed such a close. */
  ghost predicate LeftBehindOk(s: State) {
    s.phase.Exited? && |s.performed| < |s.accepted| ==>
      |s.performed| > 0 && IsEnd(s.performed[|s.performed| - 1])
  }

  ghost predicate ClosedCleanly(s: State) {
    && |s.performed| > 0
    && s.performed[|s.performed| - 1].ticket.command.Close?
    && s.performed[|s.performed| - 1].outcome.Success?
  }

  ghost predicate EventsOk(s: State) {
    s.closedEvents == if ClosedCleanly(s) && (s.phase.Leaving? || s.phase.Exited?) then 1 else 0
  }

  /** What the k-th accepted command is answered: its outcome, or a closed channel if it was not performed. */
  function AnswerTo(s: State, k: nat): Answer {
    if k < |s.performed| then Returned(s.performed[k].outcome) else ChannelClosed
  }

  ghost predicate RepliesOk(s: State) {
    && |s.replies| == (if s.phase.Exited? then |s.accepted|
                       else if s.phase.Counting? || s.phase.Replying? then |s.performed| - 1
                       else |s.performed|)
    && forall k :: 0 <= k < |s.replies| ==>
         s.replies[k] == Reply(k, AnswerTo(s, k))
  }

  // ---------- statistics ----------

  function SentPackets(performed: seq<Performed>): nat {
    if performed == [] then 0
    else
      var last := performed[|performed| - 1];
      SentPackets(performed[..|performed| - 1]) + (if last.ticket.command.Send? && last.outcome.Success? then 1 else 0)
  }

  function SentBytes(performed: seq<Performed>): nat {
    if performed == [] then 0
    else
      var last := performed[|performed| - 1];
      SentBytes(performed[..|performed| - 1])
      + (if last.ticket.command.Send? && last.outcome.Success? then |last.ticket.command.packet.payload| else 0)
  }

  function SendCommands(performed: seq<Performed>): nat {
    if performed == [] then 0
    else SendCommands(performed[..|performed| - 1]) + (if performed[|performed| - 1].ticket.command.Send? then 1 else 0)
  }

  /** The commands performed whose counters have been updated. */
  ghost function Counted(s: State): seq<Performed> {
    if s.phase.Counting? && s.performed != [] then s.performed[..|s.performed| - 1] else s.performed
  }

  /** Of `performed`: packets and bytes sent, and the send commands that were not. */
  ghost predicate Describes(stats: Stats, performed: seq<Performed>) {
    && stats.packetsSent == SentPackets(performed) % WORD
    && stats.bytesSent == SentBytes(performed) % WORD
    && stats.sendFailures == (SendCommands(performed) - SentPackets(performed)) % WORD
  }

  lemma RecordDescribes(stats: Stats, performed: seq<Performed>, last: Performed)
    requires Describes(stats, performed)
    ensures Describes(Record(stats, last.ticket.command, last.outcome), performed + [last])
  {
    var all := performed + [last];
    assert all[..|all| - 1] == performed;
    AddThenReduce(SentPackets(performed), 1);
    AddThenReduce(SendCommands(performed) - SentPackets(performed), 1);
    if last.ticket.command.Send? {
      AddThenReduce(SentBytes(performed), |last.ticket.command.packet.payload|);
    }
  }

  // ---------- what the calls keep ----------

  function TicketOf(state: CallState): Option<nat> {
    match state
    case Spawned => None
    case Awaiting(id) => Some(id)
    case Finished(id, _) => id
  }

  /** Every accepted command belongs to the call that holds its ticket, and every ticket was accepted. */
  ghost predicate CallsOk(s: State) {
    && (forall k :: 0 <= k < |s.accepted| ==> OwnerOk(s, k))
    && (forall c :: 0 <= c < |s.calls| ==> HolderOk(s, c))
  }

  ghost predicate OwnerOk(s: State, k: nat)
    requires k < |s.accepted|
  {
    var ticket := s.accepted[k];
    && ticket.caller < |s.calls|
    && TicketOf(s.calls[ticket.caller].state) == Some(k)
    && s.calls[ticket.caller].command == ticket.command
  }

  ghost predicate HolderOk(s: State, c: nat)
    requires c < |s.calls|
  {
    match TicketOf(s.calls[c].state)
    case Some(k) => k < |s.accepted| && s.accepted[k].caller == c
    case None => true
  }

  ghost predicate AnswerOk(s: State, call: Call) {
    call.state.Finished? ==>
      match call.state.ticket
      case None => call.state.answer == ConnectionClosed && s.phase.Exited?
      case Some(id) => id < |s.replies| && call.state.answer == s.replies[id].answer
  }

  ghost predicate AnswersOk(s: State) {
    forall c :: 0 <= c < |s.calls| ==> AnswerOk(s, s.calls[c])
  }

  ghost predicate FlagOk(s: State) {
    !s.connected ==> ClosedCleanly(s) && (s.phase.Announcing? || s.phase.Leaving? || s.phase.Exited?)
  }

  ghost predicate ClosedWell(call: Call) {
    call.command.Close? && call.state.Finished? && call.state.answer == Returned(Success)
  }

  ghost predicate FoundClosed(call: Call) {
    call.state.Finished? && call.state.answer == ConnectionClosed
  }

  ghost predicate ReturnedAlready(call: Call) {
    call.state.Finished?
  }

  ghost predicate EndedByClose(s: State) {
    |s.performed| > 0 && IsEnd(s.performed[|s.performed| - 1])
  }

  /** The flag is down once a caller has its close confirmed; the channel is closed only by a close, or when unused. */
  ghost predicate ExitOk(s: State) {
    && (!s.connected <==> exists c :: 0 <= c < |s.calls| && ClosedWell(s.calls[c]))
    && (s.phase.Exited? ==> EndedByClose(s) || forall c :: 0 <= c < |s.calls| ==> ReturnedAlready(s.calls[c]))
    && (forall c :: 0 <= c < |s.calls| && FoundClosed(s.calls[c]) ==> s.phase.Exited? && EndedByClose(s))
  }

  ghost predicate Inv(s: State) {
    && QueueOk(s) && PerformedOk(s) && EndsOk(s) && EventsOk(s) && RepliesOk(s)
    && Describes(s.stats, Counted(s))
    && CallsOk(s) && AnswersOk(s) && FlagOk(s) && ExitOk(s)
  }

  // ---------- each step keeps it ----------

  lemma SubmitKeepsQueue(s: State, caller: nat)
    requires QueueOk(s) && Enabled(s, Submit(caller)) && !s.phase.Exited?
    ensures QueueOk(Exec(s, Submit(caller)))
  {
    var s' := Exec(s, Submit(caller));
    var taken := |s.performed| + (if s.phase.Executing? then 1 else 0);
    assert s'.accepted[taken..] == s.accepted[taken..] + [s'.accepted[|s.accepted|]];
  }

  lemma ReceiveKeepsQueue(s: State)
    requires QueueOk(s) && Enabled(s, Receive)
    ensures QueueOk(Exec(s, Receive))
  {
    assert Exec(s, Receive).queue == s.accepted[|s.performed| + 1..] && s.queue[0] == s.accepted[|s.performed|];
  }

  lemma KeepsQueue(s: State, step: Step)
    requires QueueOk(s) && Enabled(s, step)
    ensures QueueOk(Exec(s, step))
  {
    if step.Submit? && !s.phase.Exited? {
      SubmitKeepsQueue(s, step.caller);
    } else if step.Receive? {
      ReceiveKeepsQueue(s);
    } else {
      assert Exec(s, step).accepted == s.accepted && (step.Leave? || Exec(s, step).queue == s.queue);
    }
  }

  lemma ExecuteKeepsPerformed(s: State, outcome: Outcome)
    requires QueueOk(s) && PerformedOk(s) && Enabled(s, Execute(outcome))
    ensures PerformedOk(Exec(s, Execute(outcome)))
  {
    hide Possible;
    var done := Performed(s.accepted[|s.performed|], outcome);
    assert Exec(s, Execute(outcome)).performed == s.performed + [done];
    assert Fits(done, s.accepted[|s.performed|]);
  }

  lemma KeepsPerformed(s: State, step: Step)
    requires QueueOk(s) && PerformedOk(s) && Enabled(s, step)
    ensures PerformedOk(Exec(s, step))
  {
    hide Fits, QueueOk;
    if step.Execute? {
      ExecuteKeepsPerformed(s, step.outcome);
    } else {
      var s' := Exec(s, step);
      assert s'.performed == s.performed;
      assert forall k :: 0 <= k < |s.accepted| ==> s'.accepted[k] == s.accepted[k];
    }
  }

  lemma KeepsEnds(s: State, step: Step)
    requires QueueOk(s) && PerformedOk(s) && EndsOk(s) && Enabled(s, step)
    ensures EndsOk(Exec(s, step))
  {
    KeepsLeftBehind(s, step);
    hide LeftBehindOk, QueueOk;
    if step.Execute? {
    } else {
      assert Exec(s, step).performed == s.performed;
    }
  }

  lemma KeepsLeftBehind(s: State, step: Step)
    requires QueueOk(s) && EndsOk(s) && Enabled(s, step)
    ensures LeftBehindOk(Exec(s, step))
  {
    hide IsEnd;
    if step.Leave? || step.Abandoned? {
    } else if s.phase.Exited? {
      assert Exec(s, step).performed == s.performed && Exec(s, step).accepted == s.accepted;
    } else {
      assert !Exec(s, step).phase.Exited?;
    }
  }

  lemma KeepsEvents(s: State, step: Step)
    requires PerformedOk(s) && EndsOk(s) && EventsOk(s) && Enabled(s, step)
    ensures EventsOk(Exec(s, step))
  {
    if step.Execute? {
    } else {
      assert Exec(s, step).performed == s.performed;
    }
  }

  lemma AnswerKeepsReplies(s: State)
    requires QueueOk(s) && PerformedOk(s) && RepliesOk(s) && Enabled(s, Answer)
    ensures RepliesOk(Exec(s, Answer))
  {
    var last := |s.performed| - 1;
    assert s.phase.done == s.performed[last] && s.performed[last].ticket.id == last;
  }

  lemma LeaveKeepsReplies(s: State)
    requires QueueOk(s) && RepliesOk(s) && Enabled(s, Leave)
    ensures RepliesOk(Exec(s, Leave))
  {
    forall k | 0 <= k < |s.queue|
      ensures Drop(s.queue)[k] == Reply(|s.performed| + k, ChannelClosed)
    {
    }
  }

  lemma KeepsReplies(s: State, step: Step)
    requires QueueOk(s) && PerformedOk(s) && RepliesOk(s) && Enabled(s, step)
    ensures RepliesOk(Exec(s, step))
  {
    if step.Leave? {
      LeaveKeepsReplies(s);
    } else if step.Answer? {
      AnswerKeepsReplies(s);
    } else {
      assert Exec(s, step).replies == s.replies;
    }
  }

  lemma CountKeepsStats(s: State)
    requires PerformedOk(s) && Describes(s.stats, Counted(s)) && Enabled(s, Count)
    ensures Describes(Exec(s, Count).stats, Counted(Exec(s, Count)))
  {
    hide Describes, Fits;
    var done := s.performed[|s.performed| - 1];
    assert s.performed == Counted(s) + [done];
    RecordDescribes(s.stats, Counted(s), done);
  }

  lemma KeepsStats(s: State, step: Step)
    requires PerformedOk(s) && Describes(s.stats, Counted(s)) && Enabled(s, step)
    ensures Describes(Exec(s, step).stats, Counted(Exec(s, step)))
  {
    hide Describes, Fits;
    if step.Count? {
      CountKeepsStats(s);
    } else if step.Execute? {
      assert Counted(Exec(s, step)) == s.performed;
    } else {
      assert Exec(s, step).stats == s.stats && Exec(s, step).performed == s.performed;
    }
  }

  lemma KeepsOwner(s: State, step: Step, k: nat)
    requires Enabled(s, step) && k < |Exec(s, step).accepted|
    requires k < |s.accepted| ==> OwnerOk(s, k)
    ensures OwnerOk(Exec(s, step), k)
  {
  }

  lemma KeepsHolder(s: State, step: Step, c: nat)
    requires Enabled(s, step) && c < |s.calls| && HolderOk(s, c)
    ensures HolderOk(Exec(s, step), c)
  {
  }

  lemma KeepsCalls(s: State, step: Step)
    requires CallsOk(s) && Enabled(s, step)
    ensures CallsOk(Exec(s, step))
  {
    hide Exec, Enabled, OwnerOk, HolderOk;
    SameCalls(s, step);
    var s' := Exec(s, step);
    forall k | 0 <= k < |s'.accepted|
      ensures OwnerOk(s', k)
    {
      KeepsOwner(s, step, k);
    }
    forall c | 0 <= c < |s'.calls|
      ensures HolderOk(s', c)
    {
      KeepsHolder(s, step, c);
    }
  }

  lemma SameCalls(s: State, step: Step)
    requires Enabled(s, step)
    ensures |Exec(s, step).calls| == |s.calls|
  {
  }

  lemma KeepsAnswers(s: State, step: Step)
    requires AnswersOk(s) && Enabled(s, step)
    ensures AnswersOk(Exec(s, step))
  {
    var s' := Exec(s, step);
    forall c | 0 <= c < |s'.calls|
      ensures AnswerOk(s', s'.calls[c])
    {
      assert AnswerOk(s, s.calls[c]);
    }
  }

  lemma KeepsFlag(s: State, step: Step)
    requires Inv(s) && Enabled(s, step)
    ensures FlagOk(Exec(s, step))
  {
    if step.Collect? {
      var call := s.calls[step.caller];
      var id := call.state.id;
      assert HolderOk(s, step.caller) && TicketOf(call.state) == Some(id);
      assert OwnerOk(s, id);
      if call.command.Close? && s.replies[id].answer == Returned(Success) {
        assert s.performed[id].ticket == s.accepted[id] && IsEnd(s.performed[id]);
      }
    }
  }

  /** What a step does to the calls. */
  lemma CallStep(s: State, step: Step)
    requires Enabled(s, step) && RepliesOk(s)
    ensures var s' := Exec(s, step);
      && |s'.calls| == |s.calls|
      && (!step.Submit? && !step.Collect? ==> s'.calls == s.calls && s'.connected == s.connected)
      && (step.Submit? ==>
            && s'.calls == s.calls[step.caller := s'.calls[step.caller]] && s'.connected == s.connected
            && !ReturnedAlready(s.calls[step.caller]) && !ClosedWell(s'.calls[step.caller])
            && (FoundClosed(s'.calls[step.caller]) <==> s.phase.Exited?)
            && (ReturnedAlready(s'.calls[step.caller]) <==> s.phase.Exited?))
      && (step.Collect? ==>
            && s'.calls == s.calls[step.caller := s'.calls[step.caller]]
            && !ReturnedAlready(s.calls[step.caller]) && ReturnedAlready(s'.calls[step.caller])
            && !FoundClosed(s'.calls[step.caller])
            && s'.connected == (s.connected && !ClosedWell(s'.calls[step.caller])))
  {
  }

  lemma ExitStep(s: State, step: Step)
    requires Enabled(s, step) && QueueOk(s) && EndsOk(s)
    ensures var s' := Exec(s, step);
      && (s.phase.Exited? ==> s'.phase.Exited? && s'.performed == s.performed)
      && (!s.phase.Exited? && s'.phase.Exited? ==>
            s'.calls == s.calls && s'.performed == s.performed
            && (EndedByClose(s) || forall c :: 0 <= c < |s.calls| ==> ReturnedAlready(s.calls[c])))
  {
  }

  lemma KeepsExit(s: State, step: Step)
    requires Enabled(s, step) && QueueOk(s) && EndsOk(s) && RepliesOk(s) && ExitOk(s)
    ensures ExitOk(Exec(s, step))
  {
    hide Exec, Enabled, QueueOk, EndsOk, RepliesOk, ClosedWell, FoundClosed, ReturnedAlready, EndedByClose;
    KeepsConfirmed(s, step);
    KeepsFound(s, step);
  }

  lemma KeepsConfirmed(s: State, step: Step)
    requires Enabled(s, step) && RepliesOk(s)
    requires !s.connected <==> exists c :: 0 <= c < |s.calls| && ClosedWell(s.calls[c])
    ensures var s' := Exec(s, step);
      !s'.connected <==> exists c :: 0 <= c < |s'.calls| && ClosedWell(s'.calls[c])
  {
    CallStep(s, step);
    FoundMeansReturned(s);
    SubmitterExists(s, step);
    hide Exec, Enabled, RepliesOk, ClosedWell, FoundClosed, ReturnedAlready;
    var s' := Exec(s, step);
    if step.Submit? || step.Collect? {
      if c :| 0 <= c < |s.calls| && ClosedWell(s.calls[c]) {
        assert ClosedWell(s'.calls[c]);
      }
      if c :| 0 <= c < |s'.calls| && ClosedWell(s'.calls[c]) {
        assert c == step.caller || ClosedWell(s.calls[c]);
      }
    }
  }

  lemma SubmitterExists(s: State, step: Step)
    requires Enabled(s, step)
    ensures step.Submit? || step.Collect? ==> step.caller < |s.calls|
  {
  }

  lemma KeepsFound(s: State, step: Step)
    requires Enabled(s, step) && QueueOk(s) && EndsOk(s) && RepliesOk(s)
    requires s.phase.Exited? ==> EndedByClose(s) || forall c :: 0 <= c < |s.calls| ==> ReturnedAlready(s.calls[c])
    requires forall c :: 0 <= c < |s.calls| && FoundClosed(s.calls[c]) ==> s.phase.Exited? && EndedByClose(s)
    ensures var s' := Exec(s, step);
      && (s'.phase.Exited? ==> EndedByClose(s') || forall c :: 0 <= c < |s'.calls| ==> ReturnedAlready(s'.calls[c]))
      && (forall c :: 0 <= c < |s'.calls| && FoundClosed(s'.calls[c]) ==> s'.phase.Exited? && EndedByClose(s'))
  {
    CallStep(s, step);
    ExitStep(s, step);
    EndStays(s, Exec(s, step));
    hide Exec, Enabled, QueueOk, EndsOk, RepliesOk, ClosedWell, FoundClosed, ReturnedAlready, EndedByClose;
    var s' := Exec(s, step);
    forall c | 0 <= c < |s'.calls| && FoundClosed(s'.calls[c])
      ensures s'.phase.Exited? && EndedByClose(s')
    {
      assert s'.calls[c] == s.calls[c] || (step.Submit? && c == step.caller && s.phase.Exited?);
    }
  }

  lemma EndStays(s: State, s': State)
    requires s.phase.Exited? ==> s'.performed == s.performed
    ensures s.phase.Exited? && EndedByClose(s) ==> EndedByClose(s')
  {
  }

  lemma FoundMeansReturned(s: State)
    ensures forall c :: 0 <= c < |s.calls| && (FoundClosed(s.calls[c]) || ClosedWell(s.calls[c])) ==>
              ReturnedAlready(s.calls[c])
  {
  }

  lemma StepKeepsInv(s: State, step: Step)
    requires Inv(s) && Enabled(s, step)
    ensures Inv(Exec(s, step))
  {
    hide Exec, Enabled, QueueOk, PerformedOk, EndsOk, EventsOk, RepliesOk, Describes, CallsOk, AnswersOk, FlagOk;
    hide ExitOk;
    KeepsExit(s, step);
    KeepsQueue(s, step);
    KeepsPerformed(s, step);
    KeepsEnds(s, step);
    KeepsEvents(s, step);
    KeepsReplies(s, step);
    KeepsStats(s, step);
    KeepsCalls(s, step);
    KeepsAnswers(s, step);
    KeepsFlag(s, step);
  }

  // ---------- what every run keeps ----------

  lemma InvOfRun(run: seq<State>)
    requires IsRun(Init, Next, run)
    ensures forall i :: 0 <= i < |run| ==> Inv(run[i])
  {
    forall s, s' | Inv(s) && Next(s, s')
      ensures Inv(s')
    {
      var step :| Enabled(s, step) && s' == Exec(s, step);
      StepKeepsInv(s, step);
    }
    InvariantOfRun(Init, Next, Inv, run);
  }

  /** Commands are performed in the order in which the channel accepted them, each at most once. */
  lemma PerformedInOrder(run: seq<State>, i: nat)
    requires IsRun(Init, Next, run) && i < |run|
    ensures |run[i].performed| <= |run[i].accepted|
    ensures forall k :: 0 <= k < |run[i].performed| ==>
              var p := run[i].performed[k];
              && p.ticket == run[i].accepted[k]
              && (p.ticket.command.IsConnected? || p.ticket.command.GetConnectionInfo? ==> p.outcome.Success?)
  {
    hide Init, Exec, Enabled, QueueOk, EndsOk, EventsOk, RepliesOk, Describes, CallsOk, AnswersOk, FlagOk;
    InvOfRun(run);
    forall k | 0 <= k < |run[i].performed|
      ensures Possible(run[i].performed[k].ticket.command, run[i].performed[k].outcome)
      ensures run[i].performed[k].ticket == run[i].accepted[k]
    {
      assert Fits(run[i].performed[k], run[i].accepted[k]);
    }
  }

  /**
  The k-th reply answers the k-th accepted command: with the outcome of performing it, or, if it was never
  performed, with a closed channel. Once the worker has left, every accepted command has its one reply.
  */
  lemma OneReplyPerCommand(run: seq<State>, i: nat)
    requires IsRun(Init, Next, run) && i < |run|
    ensures |run[i].replies| <= |run[i].accepted|
    ensures forall k :: 0 <= k < |run[i].replies| ==>
              run[i].replies[k]
              == Reply(k, if k < |run[i].performed| then Returned(run[i].performed[k].outcome) else ChannelClosed)
    ensures run[i].phase.Exited? ==> |run[i].replies| == |run[i].accepted|
  {
    hide Init, Exec, Enabled, EndsOk, EventsOk, Describes, CallsOk, AnswersOk, FlagOk;
    InvOfRun(run);
  }

  /**
  A close that succeeds or times out is the last command performed, and nothing else ends the worker: whenever it has
  left an accepted command behind, the last one it performed is such a close. The event is sent, and the flag goes
  down, only after a successful one.
  */
  lemma NothingAfterClose(run: seq<State>, i: nat)
    requires IsRun(Init, Next, run) && i < |run|
    ensures var s := run[i];
      var n := |s.performed|;
      && (forall k :: 0 <= k < n - 1 ==> !(s.performed[k].ticket.command.Close? && !s.performed[k].outcome.Failure?))
      && (s.phase.Exited? && n < |s.accepted| ==>
            n > 0 && s.performed[n - 1].ticket.command.Close? && !s.performed[n - 1].outcome.Failure?)
      && (!s.connected ==>
            n > 0 && s.performed[n - 1].ticket.command.Close? && s.performed[n - 1].outcome.Success?)
      && s.closedEvents <= 1
      && (s.phase.Exited? ==>
            (s.closedEvents == 1 <==>
             n > 0 && s.performed[n - 1].ticket.command.Close? && s.performed[n - 1].outcome.Success?))
  {
    hide Init, Exec, Enabled, QueueOk, RepliesOk, Describes, CallsOk, AnswersOk;
    InvOfRun(run);
    forall k | 0 <= k < |run[i].performed| - 1
      ensures !(run[i].performed[k].ticket.command.Close? && !run[i].performed[k].outcome.Failure?)
    {
      assert !IsEnd(run[i].performed[k]);
    }
  }

  /**
  The flag is down exactly if some caller has had its close confirmed; and a caller finds the channel closed only
  behind a close that succeeded or timed out.
  */
  lemma ClosedOnlyByClose(run: seq<State>, i: nat)
    requires IsRun(Init, Next, run) && i < |run|
    ensures var s := run[i];
      var n := |s.performed|;
      && (!s.connected <==>
            exists c :: 0 <= c < |s.calls| && s.calls[c].command.Close?
              && s.calls[c].state.Finished? && s.calls[c].state.answer == Returned(Success))
      && ((exists c :: 0 <= c < |s.calls|
             && s.calls[c].state.Finished? && s.calls[c].state.answer == ConnectionClosed) ==>
            n > 0 && s.performed[n - 1].ticket.command.Close? && !s.performed[n - 1].outcome.Failure?)
  {
    hide Init, Exec, Enabled, QueueOk, PerformedOk, EndsOk, EventsOk, RepliesOk, Describes, CallsOk, AnswersOk, FlagOk;
    InvOfRun(run);
    var s := run[i];
    if c :| 0 <= c < |s.calls| && s.calls[c].state.Finished? && s.calls[c].state.answer == ConnectionClosed {
      assert FoundClosed(s.calls[c]);
    }
    if c :| 0 <= c < |s.calls| && ClosedWell(s.calls[c]) {
      assert s.calls[c].command.Close?;
    }
    if c :| 0 <= c < |s.calls| && s.calls[c].command.Close?
            && s.calls[c].state.Finished? && s.calls[c].state.answer == Returned(Success) {
      assert ClosedWell(s.calls[c]);
    }
  }

  lemma StepAfterClose(s: State, step: Step)
    requires Inv(s) && Enabled(s, step)
    requires |s.performed| > 0 && IsEnd(s.performed[|s.performed| - 1])
    ensures Exec(s, step).performed == s.performed
  {
  }

  lemma {:induction false} NothingEverAfterClose(run: seq<State>, i: nat, j: nat)
    requires IsRun(Init, Next, run) && i <= j < |run|
    requires |run[i].performed| > 0
    requires var last := run[i].performed[|run[i].performed| - 1]; last.ticket.command.Close? && !last.outcome.Failure?
    ensures run[j].performed == run[i].performed
  {
    hide Inv, Exec, Enabled;
    InvOfRun(run);
    if i < j {
      NothingEverAfterClose(run, i, j - 1);
      assert Next(run[j - 1], run[j - 1 + 1]);
      var step :| Enabled(run[j - 1], step) && run[j] == Exec(run[j - 1], step);
      StepAfterClose(run[j - 1], step);
    }
  }

  /**
  The counters are the numbers of send commands that succeeded and of those that did not, among the commands counted.
  Only the command the worker is just about to count may be missing; every command it has replied to is included.
  */
  lemma StatsDescribeSends(run: seq<State>, i: nat)
    requires IsRun(Init, Next, run) && i < |run|
    ensures var s, counted := run[i], Counted(run[i]);
      && s.stats.packetsSent
         == |set k | 0 <= k < |counted| && counted[k].ticket.command.Send? && counted[k].outcome.Success?| % WORD
      && s.stats.sendFailures
         == |set k | 0 <= k < |counted| && counted[k].ticket.command.Send? && !counted[k].outcome.Success?| % WORD
      && counted <= s.performed && |s.performed| - 1 <= |counted|
      && (!s.phase.Exited? ==> |s.replies| <= |counted|)
  {
    hide Exec, Enabled, QueueOk, EndsOk, EventsOk, CallsOk, AnswersOk, FlagOk, SentPackets, SendCommands, SentBytes;
    InvOfRun(run);
    SendsAreCounted(Counted(run[i]));
  }

  lemma {:induction false} SendsAreCounted(performed: seq<Performed>)
    ensures SentPackets(performed)
         == |set k | 0 <= k < |performed| && performed[k].ticket.command.Send? && performed[k].outcome.Success?|
    ensures SendCommands(performed) - SentPackets(performed)
         == |set k | 0 <= k < |performed| && performed[k].ticket.command.Send? && !performed[k].outcome.Success?|
  {
    SendsHaveIndices(performed);
    assert Indices(WasSent, performed)
        == set k | 0 <= k < |performed| && performed[k].ticket.command.Send? && performed[k].outcome.Success?;
    assert Indices(WasNotSent, performed)
        == set k | 0 <= k < |performed| && performed[k].ticket.command.Send? && !performed[k].outcome.Success?;
  }

  predicate WasSent(p: Performed) {
    p.ticket.command.Send? && p.outcome.Success?
  }

  predicate WasNotSent(p: Performed) {
    p.ticket.command.Send? && !p.outcome.Success?
  }

  lemma {:induction false} SendsHaveIndices(performed: seq<Performed>)
    ensures SentPackets(performed) == |Indices(WasSent, performed)|
    ensures SendCommands(performed) - SentPackets(performed) == |Indices(WasNotSent, performed)|
  {
    if performed == [] {
      assert Indices(WasSent, performed) == {} && Indices(WasNotSent, performed) == {};
    } else {
      var n := |performed| - 1;
      hide Indices;
      SendsHaveIndices(performed[..n]);
      assert performed == performed[..n] + [performed[n]];
      IndicesSnoc(WasSent, performed[..n], performed[n]);
      IndicesSnoc(WasNotSent, performed[..n], performed[n]);
    }
  }

  /** The bytes are those of the packets sent: the payload of each send that succeeded, and nothing for the rest. */
  lemma BytesDescribeSends(run: seq<State>, i: nat, bytes: Performed -> nat)
    requires IsRun(Init, Next, run) && i < |run|
    requires forall p :: bytes(p)
                      == if p.ticket.command.Send? && p.outcome.Success? then |p.ticket.command.packet.payload| else 0
    ensures run[i].stats.bytesSent == Sum(bytes, Counted(run[i])) % WORD
  {
    hide Exec, Enabled, QueueOk, PerformedOk, RepliesOk, EndsOk, EventsOk, CallsOk, AnswersOk, FlagOk, SentBytes;
    InvOfRun(run);
    BytesAreSummed(Counted(run[i]), bytes);
  }

  lemma {:induction false} BytesAreSummed(performed: seq<Performed>, bytes: Performed -> nat)
    requires forall p :: bytes(p)
                      == if p.ticket.command.Send? && p.outcome.Success? then |p.ticket.command.packet.payload| else 0
    ensures SentBytes(performed) == Sum(bytes, performed)
  {
    if performed != [] {
      var n := |performed| - 1;
      BytesAreSummed(performed[..n], bytes);
      assert performed == performed[..n] + [performed[n]];
      SumSnoc(bytes, performed[..n], performed[n]);
    }
  }

  /**
  Whatever the interleaving, each caller gets the answer to its own command: the outcome with which that very
  command was performed, or an error that tells it the command was not performed at all.
  */
  lemma AnswersAlign(run: seq<State>, i: nat, c: nat)
    requires IsRun(Init, Next, run) && i < |run|
    requires c < |run[i].calls| && run[i].calls[c].state.Finished?
    ensures var s := run[i];
      var call := s.calls[c];
      match call.state.answer
      case Returned(outcome) =>
        exists k :: 0 <= k < |s.performed| && s.performed[k] == Performed(Ticket(k, c, call.command), outcome)
      case _ => forall k :: 0 <= k < |s.performed| ==> s.performed[k].ticket.caller != c
  {
    hide Exec, Enabled, QueueOk, PerformedOk, RepliesOk, EndsOk, EventsOk, Describes, CallsOk, FlagOk;
    InvOfRun(run);
    assert AnswerOk(run[i], run[i].calls[c]);
    AnswerMatches(run[i], c);
  }

  lemma AnswerMatches(s: State, c: nat)
    requires QueueOk(s) && PerformedOk(s) && RepliesOk(s) && CallsOk(s)
    requires c < |s.calls| && s.calls[c].state.Finished? && AnswerOk(s, s.calls[c])
    ensures match s.calls[c].state.answer
      case Returned(outcome) =>
        exists k :: 0 <= k < |s.performed| && s.performed[k] == Performed(Ticket(k, c, s.calls[c].command), outcome)
      case _ => forall k :: 0 <= k < |s.performed| ==> s.performed[k].ticket.caller != c
  {
    hide QueueOk, OwnerOk, HolderOk, Possible;
    var ticket := s.calls[c].state.ticket;
    forall k | 0 <= k < |s.performed| && s.performed[k].ticket.caller == c
      ensures ticket == Some(k)
    {
      PerformedIsOwned(s, k);
    }
    if ticket.Some? {
      TicketIsAccepted(s, c);
      if ticket.value < |s.performed| {
        PerformedIsOwned(s, ticket.value);
        var outcome := s.performed[ticket.value].outcome;
        assert s.performed[ticket.value] == Performed(Ticket(ticket.value, c, s.calls[c].command), outcome);
      }
    }
  }

  lemma PerformedIsOwned(s: State, k: nat)
    requires QueueOk(s) && PerformedOk(s) && CallsOk(s) && k < |s.performed|
    ensures var p := s.performed[k];
      && p.ticket.caller < |s.calls|
      && TicketOf(s.calls[p.ticket.caller].state) == Some(k)
      && p.ticket == Ticket(k, p.ticket.caller, s.calls[p.ticket.caller].command)
  {
    assert OwnerOk(s, k);
  }

  lemma TicketIsAccepted(s: State, c: nat)
    requires CallsOk(s) && c < |s.calls| && TicketOf(s.calls[c].state).Some?
    ensures var k := TicketOf(s.calls[c].state).value; k < |s.accepted| && s.accepted[k].caller == c
  {
    assert HolderOk(s, c);
  }

  // ---------- batches ----------

  ghost predicate SendReturned(s: State, caller: nat, packet: Packet, answer: Answer) {
    && caller < |s.calls| && s.calls[caller].command == Send(packet)
    && s.calls[caller].state.Finished? && s.calls[caller].state.answer == answer
  }

  /** The calls from `first` on are the sends of these packets, one for each, and returned these answers. */
  ghost predicate BatchReturned(s: State, first: nat, packets: seq<Packet>, results: seq<Answer>) {
    && |results| == |packets|
    && forall k :: 0 <= k < |packets| ==> SendReturned(s, first + k, packets[k], results[k])
  }

  /** The end of `send_batch_lockfree`: the answers of the spawned sends, awaited one after the other. */
  method CollectBatch(s: State, first: nat, packets: seq<Packet>) returns (results: seq<Answer>)
    requires first + |packets| <= |s.calls|
    requires forall k :: 0 <= k < |packets| ==> IsFinishedSend(s.calls[first..][k], packets[k])
    ensures BatchReturned(s, first, packets, results)
  {
    results := [];
    for k := 0 to |packets|
      invariant |results| == k
      invariant forall b :: 0 <= b < k ==> SendReturned(s, first + b, packets[b], results[b])
    {
      assert IsFinishedSend(s.calls[first..][k], packets[k]);
      results := results + [s.calls[first + k].state.answer];
    }
  }

  predicate IsFinishedSend(call: Call, packet: Packet) {
    call.command == Send(packet) && call.state.Finished?
  }

  /**
  The results of a batch align with its packets index by index, in whatever order the sends ran: the k-th is the
  outcome with which the k-th packet was sent, or an error that says it was not.
  */
  lemma BatchResultsAlign(run: seq<State>, i: nat, first: nat, packets: seq<Packet>, results: seq<Answer>)
    requires IsRun(Init, Next, run) && i < |run| && BatchReturned(run[i], first, packets, results)
    ensures forall k :: 0 <= k < |packets| ==> AnswersFor(run[i], first + k, packets[k], results[k])
  {
    forall k | 0 <= k < |packets|
      ensures AnswersFor(run[i], first + k, packets[k], results[k])
    {
      assert SendReturned(run[i], first + k, packets[k], results[k]);
      AnswersAlign(run, i, first + k);
    }
  }

  /** The outcome of this caller's sending of this packet, or an error exactly if it was not sent. */
  ghost predicate AnswersFor(s: State, caller: nat, packet: Packet, answer: Answer) {
    match answer
    case Returned(outcome) =>
      exists k :: 0 <= k < |s.performed| && s.performed[k] == Performed(Ticket(k, caller, Send(packet)), outcome)
    case _ => forall k :: 0 <= k < |s.performed| ==> s.performed[k].ticket.caller != caller
  }

  /** Nothing is ruled out: any command may be performed with any outcome, only the status queries always succeed. */
  lemma AnyOutcomeMayHappen(command: Command, outcome: Outcome) returns (run: seq<State>)
    requires command.IsConnected? || command.GetConnectionInfo? ==> outcome.Success?
    ensures IsRun(Init, Next, run)
    ensures run[|run| - 1].performed == [Performed(Ticket(0, 0, command), outcome)]
  {
    var start := State([Call(command, Spawned)], [], Receiving, [], Stats(0, 0, 0), true, 0, [], []);
    run := [start];
    run := Continue(run, Submit(0));
    run := Continue(run, Receive);
    run := Continue(run, Execute(outcome));
  }

  lemma Continue(run: seq<State>, step: Step) returns (longer: seq<State>)
    requires IsRun(Init, Next, run) && Enabled(run[|run| - 1], step)
    ensures IsRun(Init, Next, longer) && longer[|longer| - 1] == Exec(run[|run| - 1], step)
  {
    longer := run + [Exec(run[|run| - 1], step)];
    forall i | 0 <= i < |longer| - 1
      ensures Next(longer[i], longer[i + 1])
    {
      assert i < |run| - 1 ==> Next(run[i], run[i + 1]);
    }
  }

  // ---------- every call returns ----------

  /** As long as a call has not returned, something can happen. */
  lemma NoCallIsStuck(run: seq<State>, i: nat, c: nat)
    requires IsRun(Init, Next, run) && i < |run|
    requires c < |run[i].calls| && !run[i].calls[c].state.Finished?
    ensures exists step :: Enabled(run[i], step)
  {
    hide Exec, EndsOk, EventsOk, Describes, AnswersOk, FlagOk;
    InvOfRun(run);
    SomethingCanHappen(run[i], c);
  }

  /** A command that has no reply yet is in the channel, or with a worker that has not left. */
  lemma UnansweredIsAhead(s: State, id: nat)
    requires QueueOk(s) && RepliesOk(s) && |s.replies| <= id < |s.accepted|
    ensures !s.phase.Exited? && (s.phase.Receiving? ==> s.queue != [])
  {
  }

  lemma WorkerCanMove(s: State)
    requires !s.phase.Exited? && (s.phase.Receiving? ==> s.queue != [])
    ensures Enabled(s, PhaseStep(s.phase))
  {
  }

  lemma SomethingCanHappen(s: State, c: nat)
    requires QueueOk(s) && RepliesOk(s) && CallsOk(s)
    requires c < |s.calls| && !s.calls[c].state.Finished?
    ensures exists step :: Enabled(s, step)
  {
    hide QueueOk, RepliesOk, PhaseStep;
    var state := s.calls[c].state;
    if state.Spawned? {
      assert Enabled(s, Submit(c));
    } else if state.id < |s.replies| {
      assert Enabled(s, Collect(c));
    } else {
      assert TicketOf(state) == Some(state.id) && HolderOk(s, c);
      UnansweredIsAhead(s, state.id);
      WorkerCanMove(s);
    }
  }

  function PhaseStep(phase: Phase): Step {
    match phase
    case Receiving => Receive
    case Executing(_) => Execute(Success)
    case Counting(_) => Count
    case Replying(_) => Answer
    case Announcing => Announce
    case Leaving => Leave
    case Exited => Abandoned
  }

  ghost function CallWork(): Call -> nat {
    (call: Call) => if call.state.Spawned? then 7 else if call.state.Awaiting? then 1 else 0
  }

  function PhaseWork(phase: Phase): nat {
    match phase
    case Receiving => 3
    case Executing(_) => 7
    case Counting(_) => 6
    case Replying(_) => 5
    case Announcing => 2
    case Leaving => 1
    case Exited => 0
  }

  /** A bound on the steps that are left. */
  ghost function Work(s: State): nat {
    Sum(CallWork(), s.calls) + 5 * |s.queue| + PhaseWork(s.phase)
  }

  lemma StepUsesUpWork(s: State, step: Step)
    requires Enabled(s, step)
    ensures Work(Exec(s, step)) < Work(s)
  {
    if step.Submit? || step.Collect? {
      SumUpdate(CallWork(), s.calls, step.caller, Exec(s, step).calls[step.caller]);
    }
  }

  /** Every run is finite, and since no call is ever stuck, every call returns by its end. */
  lemma {:induction false} RunsAreShort(run: seq<State>)
    requires IsRun(Init, Next, run)
    ensures |run| - 1 + Work(run[|run| - 1]) <= 7 * |run[0].calls| + 3
  {
    hide Exec, Enabled;
    if |run| == 1 {
      SpawnedWork(run[0].calls);
    } else {
      var shorter := run[..|run| - 1];
      assert forall k :: 0 <= k < |shorter| - 1 ==> Next(run[k], run[k + 1]);
      RunsAreShort(shorter);
      assert Next(run[|run| - 2], run[|run| - 2 + 1]);
      var step :| Enabled(run[|run| - 2], step) && run[|run| - 1] == Exec(run[|run| - 2], step);
      StepUsesUpWork(run[|run| - 2], step);
    }
  }

  lemma {:induction false} SpawnedWork(calls: seq<Call>)
    requires forall c :: 0 <= c < |calls| ==> calls[c].state.Spawned?
    ensures Sum(CallWork(), calls) == 7 * |calls|
  {
    if calls != [] {
      SpawnedWork(calls[1..]);
    }
  }

  // ---------- the worker by itself ----------

  /** What the worker performs, given the outcomes it will meet. */
  function Log(commands: seq<Command>, outcomes: seq<Outcome>, count: nat): seq<Performed>
    requires count <= |commands| == |outcomes|
  {
    seq(count, k requires 0 <= k < count => Performed(Ticket(k, k, commands[k]), outcomes[k]))
  }

  lemma LogDescribes(stats: Stats, commands: seq<Command>, outcomes: seq<Outcome>, count: nat)
    requires count < |commands| == |outcomes| && Describes(stats, Log(commands, outcomes, count))
    ensures Describes(Record(stats, commands[count], outcomes[count]), Log(commands, outcomes, count + 1))
  {
    var last := Performed(Ticket(count, count, commands[count]), outcomes[count]);
    RecordDescribes(stats, Log(commands, outcomes, count), last);
    assert Log(commands, outcomes, count) + [last] == Log(commands, outcomes, count + 1);
  }

  /** The sends that were performed are those whose answers are outcomes. */
  lemma LogCounts(commands: seq<Command>, outcomes: seq<Outcome>, performed: seq<Answer>, answers: seq<Answer>)
    requires |performed| <= |answers| == |commands| == |outcomes|
    requires forall k :: 0 <= k < |answers| ==>
               answers[k] == if k < |performed| then Returned(outcomes[k]) else ChannelClosed
    ensures var log := Log(commands, outcomes, |performed|);
      && SentPackets(log) == |set k | 0 <= k < |answers| && commands[k].Send? && answers[k] == Returned(Success)|
      && SendCommands(log) - SentPackets(log)
         == |set k | 0 <= k < |answers| && commands[k].Send?
                     && (answers[k] == Returned(Failure) || answers[k] == Returned(Timeout))|
  {
    var log := Log(commands, outcomes, |performed|);
    SendsHaveIndices(log);
    assert Indices(WasSent, log) == set k | 0 <= k < |answers| && commands[k].Send? && answers[k] == Returned(Success);
    assert Indices(WasNotSent, log)
        == set k | 0 <= k < |answers| && commands[k].Send?
                   && (answers[k] == Returned(Failure) || answers[k] == Returned(Timeout));
  }

  /** The worker task over a channel that nobody adds to any more. */
  class Worker {
    var channel: seq<Command>
    var stats: Stats
    var closedEvents: nat

    constructor (commands: seq<Command>)
      ensures channel == commands && stats == Stats(0, 0, 0) && closedEvents == 0
    {
      channel, stats, closedEvents := commands, Stats(0, 0, 0), 0;
    }

    /** One round of the loop: a command, its counters, and whether the worker goes on. */
    method Serve(outcome: Outcome) returns (running: bool)
      requires channel != []
      modifies this
      ensures channel == old(channel)[1..] && stats == Record(old(stats), old(channel)[0], outcome)
      ensures running == !Ends(old(channel)[0], outcome)
      ensures closedEvents == old(closedEvents) + if !running && outcome.Success? then 1 else 0
    {
      var command := channel[0];
      channel := channel[1..];
      stats := Record(stats, command, outcome);
      running := true;
      if Ends(command, outcome) {
        if outcome.Success? {
          closedEvents := closedEvents + 1;
        }
        running := false;
      }
    }

    /** Drains the channel: `count` commands are performed, and those behind an ending close are dropped. */
    method Run(outcomes: seq<Outcome>) returns (answers: seq<Answer>, ghost count: nat)
      requires |outcomes| == |channel| && stats == Stats(0, 0, 0) && closedEvents == 0
      modifies this
      ensures channel == []
      ensures |answers| == |outcomes|
      ensures forall k :: 0 <= k < |answers| ==> answers[k] == Returned(outcomes[k]) || answers[k] == ChannelClosed
      ensures forall k :: 0 <= k < |answers| ==>
                (answers[k] == ChannelClosed <==>
                 exists j :: 0 <= j < k && old(channel)[j].Close? && !outcomes[j].Failure?)
      ensures stats.packetsSent
           == |set k | 0 <= k < |answers| && old(channel)[k].Send? && answers[k] == Returned(Success)| % WORD
      ensures stats.sendFailures
           == |set k | 0 <= k < |answers| && old(channel)[k].Send?
                       && (answers[k] == Returned(Failure) || answers[k] == Returned(Timeout))| % WORD
      ensures count <= |answers| && forall k :: 0 <= k < |answers| ==> (answers[k].Returned? <==> k < count)
      ensures stats.bytesSent == SentBytes(Log(old(channel), outcomes, count)) % WORD
      ensures closedEvents
           == if exists k :: 0 <= k < |answers| && old(channel)[k].Close? && answers[k] == Returned(Success) then 1
              else 0
    {
      ghost var commands := channel;
      answers := [];
      var running := true;
      while running && channel != []
        invariant |answers| <= |commands| && channel == commands[|answers|..]
        invariant forall k :: 0 <= k < |answers| ==> answers[k] == Returned(outcomes[k])
        invariant forall k :: 0 <= k < |answers| ==>
                    (Ends(commands[k], outcomes[k]) <==> !running && k == |answers| - 1)
        invariant !running ==> |answers| > 0
        invariant Describes(stats, Log(commands, outcomes, |answers|))
        invariant closedEvents == (if !running && outcomes[|answers| - 1].Success? then 1 else 0)
        decreases |channel|
      {
        hide Describes, Log, Record;
        var outcome := outcomes[|answers|];
        LogDescribes(stats, commands, outcomes, |answers|);
        running := Serve(outcome);
        answers := answers + [Returned(outcome)];
      }
      ghost var performed := answers;
      count := |performed|;
      answers := answers + seq(|channel|, _ => ChannelClosed);
      channel := [];
      LogCounts(commands, outcomes, performed, answers);
    }
  }
}
