/**
The actor's sending side: three tasks joined by queues. The command adapter turns commands into internal
ones, the command task forwards packets to the data queue, and the data task sends them in batches. Packets
may also be pushed to the data queue directly. Tasks interleave at every queue access and every send, and
what the connection answers is arbitrary.
*/
module ActorPipeline {
  import opened Counting
  import opened PacketCodec
  import opened Runs
  import opened Words

  datatype Command =
    | Send(validSession: bool, packet: Packet)
    // Close and ForceDisconnect, which the adapter treats alike
    | Stop(validSession: bool)
    // queries, configuration, pause and resume, which touch no queue
    | Other

  datatype Internal = SendPacket(packet: Packet) | Shutdown

  /** A packet in the data queue; where it came from only matters to an observer. */
  datatype Item = Item(packet: Packet, fromCommand: bool)

  datatype SendResult = Disconnected | Done | Failed(connected: bool)

  /** What became of a packet the data task took from a batch. */
  datatype Fate = Delivered | Errored | Discarded

  datatype Handled = Handled(item: Item, fate: Fate)

  datatype Phase = Waiting | Filling | Draining(size: nat) | Stopped

  datatype Stats = Stats(sent: nat, bytes: nat, errors: nat, batches: nat, batched: nat)

  /**
  `issued` (every command given to the adapter), `accepted` (packets whose Send was answered Ok) and `places` (where
  in `issued` each of these was), `abandoned`, `pushed`, `entered` (all that ever entered the data queue), `handled`
  and `results` (what the connection answered) only observe the run.
  */
  datatype State = State(
    limit: nat,
    commands: seq<Command>,
    adapterOn: bool,
    internal: seq<Internal>,
    forwarderOn: bool,
    data: seq<Item>,
    phase: Phase,
    batch: seq<Item>,
    stats: Stats,
    completed: seq<nat>,
    issued: seq<Command>,
    abandoned: bool,
    accepted: seq<Packet>,
    places: seq<int>,
    pushed: seq<Packet>,
    entered: seq<Item>,
    handled: seq<Handled>,
    results: seq<SendResult>)

  datatype Step =
    | Issue(command: Command)
    | Push(packet: Packet)
    | Adapt
    | AdapterAbandoned
    | Forward
    | StartBatch
    | Fill
    | CloseBatch
    | Drain(result: SendResult)
    | FinishBatch

  ghost predicate Init(s: State) {
    && s.commands == [] && s.adapterOn && s.internal == [] && s.forwarderOn
    && s.data == [] && s.phase == Waiting && s.batch == [] && s.stats == Stats(0, 0, 0, 0, 0) && s.completed == []
    && s.issued == [] && !s.abandoned && s.accepted == [] && s.places == []
    && s.pushed == [] && s.entered == [] && s.handled == [] && s.results == []
  }

  ghost predicate Enabled(s: State, step: Step) {
    match step
    case Issue(_) => s.adapterOn
    case Push(_) => true
    case Adapt => s.adapterOn && s.commands != []
    case AdapterAbandoned => s.adapterOn && s.commands == []
    case Forward => s.forwarderOn && s.internal != []
    case StartBatch => s.phase.Waiting? && s.data != []
    case Fill => s.phase.Filling? && |s.batch| < s.limit && s.data != []
    case CloseBatch => s.phase.Filling? && (|s.batch| >= s.limit || s.data == [])
    case Drain(_) => s.phase.Draining? && s.batch != []
    case FinishBatch => s.phase.Draining? && s.batch == []
  }

  function RecordSend(stats: Stats, packet: Packet, result: SendResult): Stats {
    match result
    case Disconnected => stats
    case Done => stats.(sent := (stats.sent + 1) % WORD, bytes := (stats.bytes + |packet.payload|) % WORD)
    case Failed(_) => stats.(errors := (stats.errors + 1) % WORD)
  }

  function RecordBatch(stats: Stats, size: nat): Stats {
    stats.(batches := (stats.batches + 1) % WORD, batched := (stats.batched + size) % WORD)
  }

  function FateOf(result: SendResult): Fate {
    match result
    case Disconnected => Discarded
    case Done => Delivered
    case Failed(_) => Errored
  }

  /** The data task stops when the connection is down, before or after the send. */
  predicate Stops(result: SendResult) {
    result.Disconnected? || (result.Failed? && !result.connected)
  }

  function DiscardAll(batch: seq<Item>): seq<Handled> {
    seq(|batch|, k requires 0 <= k < |batch| => Handled(batch[k], Discarded))
  }

  ghost function Exec(s: State, step: Step): State
    requires Enabled(s, step)
  {
    match step
    case Issue(command) => s.(commands := s.commands + [command], issued := s.issued + [command])
    case Push(packet) =>
      var item := Item(packet, false);
      s.(data := s.data + [item], entered := s.entered + [item], pushed := s.pushed + [packet])
    case Adapt => Adapted(s.(commands := s.commands[1..]), s.commands[0])
    case AdapterAbandoned => s.(adapterOn := false, abandoned := true)
    case Forward =>
      var rest := s.(internal := s.internal[1..]);
      (match s.internal[0]
       case SendPacket(packet) =>
         var item := Item(packet, true);
         rest.(data := rest.data + [item], entered := rest.entered + [item])
       case Shutdown => rest.(forwarderOn := false))
    case StartBatch => s.(data := s.data[1..], batch := [s.data[0]], phase := Filling)
    case Fill => s.(data := s.data[1..], batch := s.batch + [s.data[0]])
    case CloseBatch => s.(phase := Draining(|s.batch|))
    case Drain(result) =>
      var item, rest := s.batch[0], s.batch[1..];
      var handled := s.handled + [Handled(item, FateOf(result))];
      var stats := RecordSend(s.stats, item.packet, result);
      var sent := s.(stats := stats, handled := handled, results := s.results + [result]);
      if Stops(result) then sent.(phase := Stopped, batch := [], handled := sent.handled + DiscardAll(rest))
      else sent.(batch := rest)
    case FinishBatch =>
      s.(stats := RecordBatch(s.stats, s.phase.size), completed := s.completed + [s.phase.size], phase := Waiting)
  }

  /** How many of the issued commands the adapter has taken. */
  function Taken(s: State): int {
    |s.issued| - |s.commands|
  }

  /** The adapter's answer to a command: a send is accepted while the command task still listens. */
  ghost function Adapted(s: State, command: Command): State {
    match command
    case Send(valid, packet) =>
      if !valid then s
      else if s.forwarderOn then
        s.(internal := s.internal + [SendPacket(packet)],
           accepted := s.accepted + [packet], places := s.places + [Taken(s) - 1])
      else s.(adapterOn := false)
    case Stop(valid) =>
      if !valid then s
      else if s.forwarderOn then s.(internal := s.internal + [Shutdown], adapterOn := false)
      else s.(adapterOn := false)
    case Other => s
  }

  ghost predicate Next(s: State, s': State) {
    exists step :: Enabled(s, step) && s' == Exec(s, step)
  }

  // ---------- observations ----------

  function FromCommands(items: seq<Item>): seq<Packet> {
    if items == [] then []
    else
      var last := items[|items| - 1];
      FromCommands(items[..|items| - 1]) + (if last.fromCommand then [last.packet] else [])
  }

  function PushedDirectly(items: seq<Item>): seq<Packet> {
    if items == [] then []
    else
      var last := items[|items| - 1];
      PushedDirectly(items[..|items| - 1]) + (if last.fromCommand then [] else [last.packet])
  }

  function Items(handled: seq<Handled>): seq<Item> {
    seq(|handled|, k requires 0 <= k < |handled| => handled[k].item)
  }

  function PacketsIn(internal: seq<Internal>): seq<Packet> {
    if internal == [] then []
    else if internal[0].SendPacket? then [internal[0].packet] + PacketsIn(internal[1..])
    else PacketsIn(internal[1..])
  }

  function Count(handled: seq<Handled>, fate: Fate): nat {
    if handled == [] then 0
    else Count(handled[..|handled| - 1], fate) + (if handled[|handled| - 1].fate == fate then 1 else 0)
  }

  function DeliveredBytes(handled: seq<Handled>): nat {
    if handled == [] then 0
    else
      var last := handled[|handled| - 1];
      DeliveredBytes(handled[..|handled| - 1]) + (if last.fate.Delivered? then |last.item.packet.payload| else 0)
  }

  function Total(sizes: seq<nat>): nat {
    if sizes == [] then 0 else Total(sizes[..|sizes| - 1]) + sizes[|sizes| - 1]
  }

  // ---------- what the tasks keep ----------

  /** Nothing enters a queue without leaving it in the same order. */
  ghost predicate QueuesOk(s: State) {
    && DataOk(s)
    && CommandsOk(s)
    && PushedDirectly(s.entered) == s.pushed
  }

  ghost predicate DataOk(s: State) {
    Items(s.handled) + s.batch + s.data == s.entered
  }

  ghost predicate CommandsOk(s: State) {
    FromCommands(s.entered) + PacketsIn(s.internal) == s.accepted
  }

  ghost predicate TakenOk(s: State) {
    0 <= Taken(s) && s.issued[Taken(s)..] == s.commands
  }

  ghost predicate ComesFrom(s: State, k: nat)
    requires k < |s.accepted| && k < |s.places|
  {
    0 <= s.places[k] < Taken(s) && s.places[k] < |s.issued| && s.issued[s.places[k]] == Send(true, s.accepted[k])
  }

  /** What was accepted is what the adapter took for its own session, in order. */
  ghost predicate AcceptedOk(s: State) {
    && |s.places| == |s.accepted|
    && (forall k :: 0 <= k < |s.accepted| ==> ComesFrom(s, k))
    && (forall j, k :: 0 <= j < k < |s.places| ==> s.places[j] < s.places[k])
    && (forall j :: 0 <= j < Taken(s) && j < |s.issued| && s.issued[j].Send? && s.issued[j].validSession ==>
          j in s.places)
  }

  /** Only a stop of its own session, or being abandoned, ends the adapter, and a stop ends it at once. */
  ghost predicate StopOk(s: State) {
    && (forall j :: 0 <= j < Taken(s) && j < |s.issued| && s.issued[j] == Stop(true) ==>
          !s.adapterOn && j == Taken(s) - 1)
    && (!s.adapterOn && !s.abandoned ==> 0 < Taken(s) <= |s.issued| && s.issued[Taken(s) - 1] == Stop(true))
    && (s.abandoned ==> !s.adapterOn && s.commands == [])
  }

  ghost predicate StopTaken(s: State) {
    0 < Taken(s) <= |s.issued| && s.issued[Taken(s) - 1] == Stop(true)
  }

  ghost predicate ShutdownQueued(s: State) {
    |s.internal| > 0 && s.internal[|s.internal| - 1].Shutdown?
  }

  /** A stop that was taken is on its way to the command task, which ends with it and with nothing else. */
  ghost predicate EndOk(s: State) {
    StopTaken(s) <==> !s.forwarderOn || ShutdownQueued(s)
  }

  ghost predicate FateFits(result: SendResult, fate: Fate) {
    fate == FateOf(result)
  }

  /** Each packet is handled as the connection answered; the first answer that says it is down ends the task. */
  ghost predicate ResultsOk(s: State) {
    && |s.results| <= |s.handled|
    && (forall k :: 0 <= k < |s.results| ==> FateFits(s.results[k], s.handled[k].fate))
    && (forall k :: |s.results| <= k < |s.handled| ==> s.handled[k].fate.Discarded?)
    && (forall k :: 0 <= k < |s.results| && Stops(s.results[k]) ==> s.phase.Stopped? && k == |s.results| - 1)
    && (s.phase.Stopped? ==> |s.results| > 0 && Stops(s.results[|s.results| - 1]))
    && (!s.phase.Stopped? ==> |s.results| == |s.handled|)
  }

  /** A shutdown is the last thing the adapter puts into the internal queue and the last the command task takes. */
  ghost predicate ShutdownOk(s: State) {
    && (!s.forwarderOn ==> s.internal == [] && !s.adapterOn)
    && (forall k :: 0 <= k < |s.internal| && s.internal[k].Shutdown? ==> k == |s.internal| - 1 && !s.adapterOn)
  }

  ghost predicate BatchOk(s: State) {
    && (s.phase.Waiting? || s.phase.Stopped? ==> s.batch == [])
    && (s.phase.Filling? ==> 1 <= |s.batch| <= Largest(s.limit))
    && (s.phase.Draining? ==> |s.batch| <= s.phase.size && 1 <= s.phase.size <= Largest(s.limit))
    && (forall k :: 0 <= k < |s.completed| ==> 1 <= s.completed[k] <= Largest(s.limit))
  }

  function Largest(limit: nat): nat {
    if limit > 1 then limit else 1
  }

  ghost predicate Discards(h: Handled) {
    h.fate.Discarded?
  }

  /** Packets are discarded only when the data task stops, and then nothing is sent behind them. */
  ghost predicate FatesOk(s: State) {
    && (!s.phase.Stopped? ==> forall k :: 0 <= k < |s.handled| ==> !Discards(s.handled[k]))
    && DiscardedLast(s.handled)
  }

  ghost predicate DiscardedLast(handled: seq<Handled>) {
    forall j, k :: 0 <= j < k < |handled| && Discards(handled[j]) ==> Discards(handled[k])
  }

  /** How far the data task has come with the current batch. */
  function Progress(s: State): int {
    if s.phase.Draining? then s.phase.size - |s.batch| else 0
  }

  ghost predicate SendStatsOk(stats: Stats, handled: seq<Handled>) {
    && stats.sent == Count(handled, Delivered) % WORD
    && stats.errors == Count(handled, Errored) % WORD
    && stats.bytes == DeliveredBytes(handled) % WORD
  }

  ghost predicate BatchStatsOk(stats: Stats, completed: seq<nat>) {
    && stats.batches == |completed| % WORD
    && stats.batched == Total(completed) % WORD
  }

  ghost predicate StatsOk(s: State) {
    SendStatsOk(s.stats, s.handled) && BatchStatsOk(s.stats, s.completed)
  }

  ghost predicate ProgressOk(s: State) {
    && (!s.phase.Stopped? ==> |s.handled| == Total(s.completed) + Progress(s))
    && (s.phase.Stopped? ==> Total(s.completed) < |s.handled| <= Total(s.completed) + Largest(s.limit))
  }

  ghost predicate Inv(s: State) {
    && QueuesOk(s) && ShutdownOk(s) && BatchOk(s) && FatesOk(s) && StatsOk(s) && ProgressOk(s)
    && TakenOk(s) && AcceptedOk(s) && StopOk(s) && EndOk(s) && ResultsOk(s)
  }

  // ---------- each step keeps it ----------

  lemma EnterOne(entered: seq<Item>, item: Item)
    ensures FromCommands(entered + [item]) == FromCommands(entered) + (if item.fromCommand then [item.packet] else [])
    ensures PushedDirectly(entered + [item])
         == PushedDirectly(entered) + (if item.fromCommand then [] else [item.packet])
  {
    assert (entered + [item])[..|entered|] == entered;
  }

  lemma {:induction false} PacketsAppend(internal: seq<Internal>, next: Internal)
    ensures PacketsIn(internal + [next]) == PacketsIn(internal) + (if next.SendPacket? then [next.packet] else [])
  {
    if internal != [] {
      assert (internal + [next])[1..] == internal[1..] + [next];
      PacketsAppend(internal[1..], next);
    } else {
      assert ([] + [next])[1..] == [];
    }
  }

  lemma HandleOne(handled: seq<Handled>, h: Handled, fate: Fate)
    ensures Count(handled + [h], fate) == Count(handled, fate) + (if h.fate == fate then 1 else 0)
    ensures DeliveredBytes(handled + [h])
         == DeliveredBytes(handled) + (if h.fate.Delivered? then |h.item.packet.payload| else 0)
  {
    assert (handled + [h])[..|handled|] == handled;
  }

  lemma {:induction false} DiscardsCountForNothing(handled: seq<Handled>, batch: seq<Item>, fate: Fate)
    requires !fate.Discarded?
    ensures Count(handled + DiscardAll(batch), fate) == Count(handled, fate)
    ensures DeliveredBytes(handled + DiscardAll(batch)) == DeliveredBytes(handled)
  {
    if batch == [] {
      assert handled + DiscardAll(batch) == handled;
    } else {
      var shorter := batch[..|batch| - 1];
      var last := Handled(batch[|batch| - 1], Discarded);
      assert handled + DiscardAll(batch) == handled + DiscardAll(shorter) + [last];
      HandleOne(handled + DiscardAll(shorter), last, fate);
      DiscardsCountForNothing(handled, shorter, fate);
    }
  }

  lemma DrainKeepsData(s: State, result: SendResult)
    requires s.phase.Draining? && s.batch != []
    ensures Items(Exec(s, Drain(result)).handled) + Exec(s, Drain(result)).batch == Items(s.handled) + s.batch
  {
  }

  lemma MoveOne<T>(front: seq<T>, batch: seq<T>, data: seq<T>)
    requires data != []
    ensures front + (batch + [data[0]]) + data[1..] == front + batch + data
  {
  }

  lemma AddOne<T>(front: seq<T>, batch: seq<T>, data: seq<T>, next: T)
    ensures front + batch + (data + [next]) == front + batch + data + [next]
  {
  }

  lemma KeepsData(s: State, step: Step)
    requires DataOk(s) && BatchOk(s) && Enabled(s, step)
    ensures DataOk(Exec(s, step))
  {
    hide Items;
    if step.StartBatch? {
      assert s.batch == [] && [] + [s.data[0]] == [s.data[0]];
      MoveOne(Items(s.handled), s.batch, s.data);
    } else if step.Fill? {
      MoveOne(Items(s.handled), s.batch, s.data);
    } else if step.Drain? {
      DrainKeepsData(s, step.result);
      assert Exec(s, step).data == s.data && Exec(s, step).entered == s.entered;
    } else if step.Push? {
      AddOne(Items(s.handled), s.batch, s.data, Item(step.packet, false));
    } else if step.Forward? && s.internal[0].SendPacket? {
      AddOne(Items(s.handled), s.batch, s.data, Item(s.internal[0].packet, true));
    } else {
      var s' := Exec(s, step);
      assert s'.handled == s.handled && s'.batch == s.batch && s'.data == s.data && s'.entered == s.entered;
    }
  }

  lemma AdaptKeepsCommands(s: State)
    requires CommandsOk(s) && ShutdownOk(s) && Enabled(s, Adapt)
    ensures CommandsOk(Exec(s, Adapt))
  {
    hide FromCommands, PacketsIn;
    match s.commands[0] {
      case Send(_, packet) => PacketsAppend(s.internal, SendPacket(packet));
      case Stop(_) => PacketsAppend(s.internal, Shutdown);
      case Other =>
    }
  }

  lemma ForwardKeepsCommands(s: State)
    requires CommandsOk(s) && Enabled(s, Forward)
    ensures CommandsOk(Exec(s, Forward))
  {
    hide FromCommands;
    match s.internal[0] {
      case SendPacket(packet) => EnterOne(s.entered, Item(packet, true));
      case Shutdown =>
    }
  }

  lemma KeepsCommands(s: State, step: Step)
    requires CommandsOk(s) && ShutdownOk(s) && Enabled(s, step)
    ensures CommandsOk(Exec(s, step))
  {
    hide FromCommands, PacketsIn;
    if step.Adapt? {
      AdaptKeepsCommands(s);
    } else if step.Forward? {
      ForwardKeepsCommands(s);
    } else if step.Push? {
      EnterOne(s.entered, Item(step.packet, false));
    } else {
      var s' := Exec(s, step);
      assert s'.entered == s.entered && s'.internal == s.internal && s'.accepted == s.accepted;
    }
  }

  lemma KeepsPushed(s: State, step: Step)
    requires PushedDirectly(s.entered) == s.pushed && Enabled(s, step)
    ensures PushedDirectly(Exec(s, step).entered) == Exec(s, step).pushed
  {
    hide Items, FromCommands, PacketsIn;
    if step.Push? {
      EnterOne(s.entered, Item(step.packet, false));
    } else if step.Forward? && s.internal[0].SendPacket? {
      EnterOne(s.entered, Item(s.internal[0].packet, true));
    }
  }

  lemma KeepsShutdown(s: State, step: Step)
    requires ShutdownOk(s) && Enabled(s, step)
    ensures ShutdownOk(Exec(s, step))
  {
    if step.Adapt? {
    } else if step.Forward? {
    } else {
    }
  }

  lemma KeepsBatch(s: State, step: Step)
    requires BatchOk(s) && Enabled(s, step)
    ensures BatchOk(Exec(s, step))
  {
    if step.StartBatch? || step.Fill? || step.CloseBatch? {
    } else if step.Drain? || step.FinishBatch? {
    } else {
      var s' := Exec(s, step);
      assert s'.phase == s.phase && s'.batch == s.batch && s'.completed == s.completed && s'.limit == s.limit;
    }
  }

  lemma KeepsFates(s: State, step: Step)
    requires FatesOk(s) && Enabled(s, step)
    ensures FatesOk(Exec(s, step))
  {
  }

  lemma DrainCounts(s: State, result: SendResult)
    requires s.phase.Draining? && s.batch != []
    ensures var handled := Exec(s, Drain(result)).handled;
      && Count(handled, Delivered) == Count(s.handled, Delivered) + (if result.Done? then 1 else 0)
      && Count(handled, Errored) == Count(s.handled, Errored) + (if result.Failed? then 1 else 0)
      && DeliveredBytes(handled)
         == DeliveredBytes(s.handled) + (if result.Done? then |s.batch[0].packet.payload| else 0)
  {
    var h := Handled(s.batch[0], FateOf(result));
    HandleOne(s.handled, h, Delivered);
    HandleOne(s.handled, h, Errored);
    DiscardsCountForNothing(s.handled + [h], s.batch[1..], Delivered);
    DiscardsCountForNothing(s.handled + [h], s.batch[1..], Errored);
  }

  lemma DrainKeepsStats(s: State, result: SendResult)
    requires SendStatsOk(s.stats, s.handled) && s.phase.Draining? && s.batch != []
    ensures SendStatsOk(RecordSend(s.stats, s.batch[0].packet, result), Exec(s, Drain(result)).handled)
  {
    hide Exec, Count, DeliveredBytes;
    DrainCounts(s, result);
    AddThenReduce(Count(s.handled, Delivered), 1);
    AddThenReduce(Count(s.handled, Errored), 1);
    AddThenReduce(DeliveredBytes(s.handled), |s.batch[0].packet.payload|);
  }

  lemma FinishKeepsStats(stats: Stats, completed: seq<nat>, size: nat)
    requires BatchStatsOk(stats, completed)
    ensures BatchStatsOk(RecordBatch(stats, size), completed + [size])
  {
    assert (completed + [size])[..|completed|] == completed;
    AddThenReduce(|completed|, 1);
    AddThenReduce(Total(completed), size);
  }

  lemma BatchLeavesSends(stats: Stats, size: nat, handled: seq<Handled>)
    requires SendStatsOk(stats, handled)
    ensures SendStatsOk(RecordBatch(stats, size), handled)
  {
  }

  lemma SendLeavesBatches(stats: Stats, packet: Packet, result: SendResult, completed: seq<nat>)
    requires BatchStatsOk(stats, completed)
    ensures BatchStatsOk(RecordSend(stats, packet, result), completed)
  {
  }

  lemma KeepsStats(s: State, step: Step)
    requires StatsOk(s) && Enabled(s, step)
    ensures StatsOk(Exec(s, step))
  {
    hide SendStatsOk, BatchStatsOk;
    var s' := Exec(s, step);
    if step.Drain? {
      DrainKeepsStats(s, step.result);
      SendLeavesBatches(s.stats, s.batch[0].packet, step.result, s.completed);
    } else if step.FinishBatch? {
      FinishKeepsStats(s.stats, s.completed, s.phase.size);
      BatchLeavesSends(s.stats, s.phase.size, s.handled);
    } else {
      assert s'.stats == s.stats && s'.handled == s.handled && s'.completed == s.completed;
    }
  }

  lemma FinishKeepsProgress(s: State)
    requires ProgressOk(s) && Enabled(s, FinishBatch)
    ensures ProgressOk(Exec(s, FinishBatch))
  {
    assert (s.completed + [s.phase.size])[..|s.completed|] == s.completed;
  }

  lemma DrainKeepsProgress(s: State, result: SendResult)
    requires ProgressOk(s) && BatchOk(s) && Enabled(s, Drain(result))
    ensures ProgressOk(Exec(s, Drain(result)))
  {
    var s' := Exec(s, Drain(result));
    assert |s'.handled| == |s.handled| + (if Stops(result) then |s.batch| else 1);
  }

  lemma KeepsProgress(s: State, step: Step)
    requires ProgressOk(s) && BatchOk(s) && Enabled(s, step)
    ensures ProgressOk(Exec(s, step))
  {
    var s' := Exec(s, step);
    if step.FinishBatch? {
      FinishKeepsProgress(s);
    } else if step.Drain? {
      DrainKeepsProgress(s, step.result);
    } else {
      assert s'.handled == s.handled && s'.completed == s.completed;
    }
  }

  /** What a step does in front of the internal queue. */
  lemma FrontStep(s: State, step: Step)
    requires Enabled(s, step) && TakenOk(s)
    ensures TakenOk(Exec(s, step))
    ensures Taken(Exec(s, step)) == Taken(s) + (if step.Adapt? then 1 else 0)
    ensures Exec(s, step).issued == s.issued + (if step.Issue? then [step.command] else [])
    ensures step.Adapt? ==> Taken(s) < |s.issued| && s.issued[Taken(s)] == s.commands[0]
    ensures !step.Adapt? && !step.Issue? ==> Exec(s, step).commands == s.commands
  {
    if step.Adapt? {
      assert s.issued[Taken(s) + 1..] == s.commands[1..];
    } else if step.Issue? {
      assert (s.issued + [step.command])[Taken(s)..] == s.commands + [step.command];
    } else {
      assert Exec(s, step).issued == s.issued && Exec(s, step).commands == s.commands;
    }
  }

  lemma AcceptanceStep(s: State, step: Step)
    requires Enabled(s, step) && ShutdownOk(s)
    ensures var s' := Exec(s, step);
      if step.Adapt? && s.commands[0].Send? && s.commands[0].validSession then
        && s'.accepted == s.accepted + [s.commands[0].packet] && s'.places == s.places + [Taken(s)]
        && s'.adapterOn == s.adapterOn && s'.abandoned == s.abandoned
      else
        && s'.accepted == s.accepted && s'.places == s.places
        && s'.abandoned == (s.abandoned || step.AdapterAbandoned?)
        && s'.adapterOn == (s.adapterOn && !step.AdapterAbandoned? && !(step.Adapt? && s.commands[0] == Stop(true)))
  {
    if step.Adapt? {
    } else {
    }
  }

  lemma KeepsAccepted(s: State, step: Step)
    requires Enabled(s, step) && ShutdownOk(s) && TakenOk(s) && AcceptedOk(s)
    ensures AcceptedOk(Exec(s, step))
  {
    FrontStep(s, step);
    AcceptanceStep(s, step);
    hide Exec, TakenOk, Taken, Enabled, ShutdownOk;
    var s' := Exec(s, step);
    forall k | 0 <= k < |s'.accepted|
      ensures ComesFrom(s', k)
    {
      assert k < |s.accepted| ==> ComesFrom(s, k);
    }
    forall k | 0 <= k < |s.places|
      ensures s.places[k] < Taken(s)
    {
      assert ComesFrom(s, k);
    }
  }

  lemma KeepsStop(s: State, step: Step)
    requires Enabled(s, step) && ShutdownOk(s) && TakenOk(s) && StopOk(s)
    ensures StopOk(Exec(s, step))
  {
    FrontStep(s, step);
    AcceptanceStep(s, step);
    AdapterMustListen(s, step);
    hide Exec, Taken, Enabled, ShutdownOk;
  }

  lemma AdapterMustListen(s: State, step: Step)
    requires Enabled(s, step)
    ensures step.Adapt? || step.AdapterAbandoned? || step.Issue? ==> s.adapterOn
    ensures step.AdapterAbandoned? ==> s.commands == []
  {
  }

  /** What a step does to the end of the internal queue. */
  lemma InternalStep(s: State, step: Step)
    requires Enabled(s, step) && ShutdownOk(s)
    ensures var s' := Exec(s, step);
      (!s'.forwarderOn || ShutdownQueued(s'))
      == (if step.Adapt? then s.commands[0] == Stop(true) else !s.forwarderOn || ShutdownQueued(s))
  {
    if step.Adapt? {
    } else if step.Forward? {
    } else {
      assert Exec(s, step).internal == s.internal && Exec(s, step).forwarderOn == s.forwarderOn;
    }
  }

  lemma KeepsEnd(s: State, step: Step)
    requires Enabled(s, step) && ShutdownOk(s) && TakenOk(s) && EndOk(s)
    ensures EndOk(Exec(s, step))
  {
    FrontStep(s, step);
    InternalStep(s, step);
    hide Exec, Enabled, ShutdownQueued, ShutdownOk;
  }

  lemma KeepsResults(s: State, step: Step)
    requires Enabled(s, step) && ResultsOk(s)
    ensures ResultsOk(Exec(s, step))
  {
    if step.Drain? {
      DrainKeepsResults(s, step.result);
    } else {
      assert Exec(s, step).handled == s.handled && Exec(s, step).results == s.results;
      assert Exec(s, step).phase.Stopped? == s.phase.Stopped?;
    }
  }

  lemma DrainKeepsResults(s: State, result: SendResult)
    requires Enabled(s, Drain(result)) && ResultsOk(s)
    ensures ResultsOk(Exec(s, Drain(result)))
  {
    DrainStep(s, result);
    hide Exec, Enabled;
    var s' := Exec(s, Drain(result));
    forall k | 0 <= k < |s'.results|
      ensures FateFits(s'.results[k], s'.handled[k].fate)
    {
      assert k < |s.results| ==> FateFits(s.results[k], s.handled[k].fate);
    }
  }

  lemma DrainStep(s: State, result: SendResult)
    requires Enabled(s, Drain(result))
    ensures var s' := Exec(s, Drain(result));
      && s'.results == s.results + [result] && !s.phase.Stopped?
      && (s'.phase.Stopped? <==> Stops(result))
      && |s.handled| < |s'.handled| && s'.handled[..|s.handled|] == s.handled
      && FateFits(result, s'.handled[|s.handled|].fate)
      && (forall k :: |s.handled| < k < |s'.handled| ==> s'.handled[k].fate.Discarded?)
      && (!Stops(result) ==> |s'.handled| == |s.handled| + 1)
  {
  }

  lemma StepKeepsInv(s: State, step: Step)
    requires Inv(s) && Enabled(s, step)
    ensures Inv(Exec(s, step))
  {
    hide Exec, Enabled, DataOk, CommandsOk, PushedDirectly, ShutdownOk, BatchOk, FatesOk, StatsOk, ProgressOk;
    hide TakenOk, AcceptedOk, StopOk, EndOk, ResultsOk;
    FrontStep(s, step);
    KeepsEnd(s, step);
    KeepsAccepted(s, step);
    KeepsStop(s, step);
    KeepsResults(s, step);
    KeepsData(s, step);
    KeepsCommands(s, step);
    KeepsPushed(s, step);
    KeepsShutdown(s, step);
    KeepsBatch(s, step);
    KeepsFates(s, step);
    KeepsStats(s, step);
    KeepsProgress(s, step);
  }

  lemma InvOfRun(run: seq<State>)
    requires IsRun(Init, Next, run)
    ensures forall i :: 0 <= i < |run| ==> Inv(run[i])
  {
    forall s, s' | Inv(s) && Next(s, s')
      ensures Inv(s')
    {
      var step :| Enabled(s, step) && s' == Exec(s, step);
      StepKeepsInv(s, step);
    }
    InvariantOfRun(Init, Next, Inv, run);
  }

  // ---------- what every run keeps ----------

  /** The packets that were sent, or tried: what the connection has been given, in order. */
  function Attempted(handled: seq<Handled>): seq<Item> {
    if handled == [] then []
    else
      var last := handled[|handled| - 1];
      Attempted(handled[..|handled| - 1]) + (if last.fate.Discarded? then [] else [last.item])
  }

  /** What the connection was given starts the queue's history; at most the stop of the data task drops packets. */
  lemma {:induction false} AttemptedIsPrefix(handled: seq<Handled>)
    requires DiscardedLast(handled)
    ensures Attempted(handled) <= Items(handled)
    ensures forall k :: 0 <= k < |handled| ==> (Discards(handled[k]) <==> k >= |Attempted(handled)|)
  {
    if handled != [] {
      var shorter := handled[..|handled| - 1];
      AttemptedIsPrefix(shorter);
      assert Items(handled) == Items(shorter) + [handled[|handled| - 1].item];
      if handled[|handled| - 1].fate.Discarded? {
      } else if |shorter| > 0 {
        assert !Discards(shorter[|shorter| - 1]);
      }
    }
  }

  lemma {:induction false} FromCommandsPrefix(front: seq<Item>, rest: seq<Item>)
    ensures FromCommands(front) <= FromCommands(front + rest)
  {
    if rest == [] {
      assert front + rest == front;
    } else {
      var shorter := rest[..|rest| - 1];
      assert front + rest == front + shorter + [rest[|rest| - 1]];
      EnterOne(front + shorter, rest[|rest| - 1]);
      FromCommandsPrefix(front, shorter);
    }
  }

  /**
  Everything that entered the data queue is handled, in the current batch or still queued, in that order, and
  its packets from commands, with those still in the internal queue behind them, are exactly the accepted ones.
  So the connection is given the accepted packets in order and without gaps.
  */
  lemma AcceptedPacketsInOrder(run: seq<State>, i: nat)
    requires IsRun(Init, Next, run) && i < |run|
    ensures var s := run[i];
      && Items(s.handled) + s.batch + s.data == s.entered
      && FromCommands(s.entered) + PacketsIn(s.internal) == s.accepted
      && PushedDirectly(s.entered) == s.pushed
      && Attempted(s.handled) <= s.entered
      && FromCommands(Attempted(s.handled)) <= s.accepted
      && (!s.phase.Stopped? ==> Attempted(s.handled) == Items(s.handled))
  {
    hide Exec, Enabled, StatsOk, ProgressOk, ShutdownOk, BatchOk, FromCommands, PacketsIn, PushedDirectly;
    hide TakenOk, AcceptedOk, StopOk, EndOk, ResultsOk;
    InvOfRun(run);
    var s := run[i];
    AttemptedIsPrefix(s.handled);
    var attempted := Attempted(s.handled);
    assert s.entered == attempted + s.entered[|attempted|..];
    FromCommandsPrefix(attempted, s.entered[|attempted|..]);
    assert !s.phase.Stopped? ==> |attempted| >= |s.handled|;
  }

  /**
  The adapter accepts exactly the sends for its own session, in the order in which it takes them, and none for another
  session; and nothing ends it but a stop for its own session or being abandoned by all who could command it.
  */
  lemma AcceptsExactlyItsSends(run: seq<State>, i: nat)
    requires IsRun(Init, Next, run) && i < |run|
    ensures var s := run[i];
      var taken := |s.issued| - |s.commands|;
      && 0 <= taken && s.issued[taken..] == s.commands
      && |s.places| == |s.accepted|
      && (forall k :: 0 <= k < |s.places| ==>
            0 <= s.places[k] < taken && s.issued[s.places[k]] == Send(true, s.accepted[k]))
      && (forall j, k :: 0 <= j < k < |s.places| ==> s.places[j] < s.places[k])
      && (forall j :: 0 <= j < taken && s.issued[j].Send? && s.issued[j].validSession ==> j in s.places)
      && (forall j :: 0 <= j < taken && s.issued[j] == Stop(true) ==> !s.adapterOn && j == taken - 1)
      && (!s.adapterOn ==> s.abandoned || (taken > 0 && s.issued[taken - 1] == Stop(true)))
      && (s.abandoned ==> s.commands == [])
  {
    hide Exec, Enabled, QueuesOk, ShutdownOk, BatchOk, FatesOk, StatsOk, ProgressOk, EndOk, ResultsOk;
    InvOfRun(run);
    var s := run[i];
    forall k | 0 <= k < |s.places|
      ensures 0 <= s.places[k] < Taken(s) && s.issued[s.places[k]] == Send(true, s.accepted[k])
    {
      assert ComesFrom(s, k);
    }
  }

  /** A stop is handed on to the command task, behind everything else, and nothing else ends that task. */
  lemma StopEndsCommandTask(run: seq<State>, i: nat)
    requires IsRun(Init, Next, run) && i < |run|
    ensures var s := run[i];
      var taken := |s.issued| - |s.commands|;
      && 0 <= taken <= |s.issued|
      && (!s.forwarderOn || (|s.internal| > 0 && s.internal[|s.internal| - 1] == Shutdown) <==>
          taken > 0 && s.issued[taken - 1] == Stop(true))
  {
    hide Exec, Enabled, QueuesOk, ShutdownOk, BatchOk, FatesOk, StatsOk, ProgressOk, AcceptedOk, StopOk, ResultsOk;
    InvOfRun(run);
  }

  /**
  Each packet that was handled met the fate the connection's answer named; the first answer that says the connection
  is down stops the data task, no other does, and what its batch still held is discarded.
  */
  lemma AnswersDecideFates(run: seq<State>, i: nat)
    requires IsRun(Init, Next, run) && i < |run|
    ensures var s := run[i];
      var n := |s.results|;
      && n <= |s.handled| && (!s.phase.Stopped? ==> n == |s.handled|)
      && (forall k :: 0 <= k < n ==>
            && (s.handled[k].fate.Delivered? <==> s.results[k].Done?)
            && (s.handled[k].fate.Errored? <==> s.results[k].Failed?))
      && (forall k :: n <= k < |s.handled| ==> s.handled[k].fate.Discarded?)
      && (forall k :: 0 <= k < n - 1 ==> s.results[k] == Done || s.results[k] == Failed(true))
      && (s.phase.Stopped? <==> n > 0 && (s.results[n - 1] == Disconnected || s.results[n - 1] == Failed(false)))
  {
    hide Exec, Enabled, QueuesOk, ShutdownOk, BatchOk, FatesOk, StatsOk, ProgressOk, TakenOk, AcceptedOk, StopOk, EndOk;
    InvOfRun(run);
    var s := run[i];
    forall k | 0 <= k < |s.results|
      ensures s.handled[k].fate == FateOf(s.results[k])
    {
      assert FateFits(s.results[k], s.handled[k].fate);
    }
  }

  lemma {:induction false} CountsAddUp(handled: seq<Handled>)
    ensures Count(handled, Delivered) + Count(handled, Errored) + Count(handled, Discarded) == |handled|
    ensures (forall k :: 0 <= k < |handled| ==> !Discards(handled[k])) ==> Count(handled, Discarded) == 0
  {
    if handled != [] {
      CountsAddUp(handled[..|handled| - 1]);
    }
  }

  /**
  Every batch holds between one packet and max(1, limit) of them. Until the data task stops, sent plus errors
  is the total of the completed batches plus the progress in the current one; when it stops, the batch under
  way is not recorded, and sent, errors and discarded packets together exceed that total by at most a batch.
  */
  lemma BatchesAccountForSends(run: seq<State>, i: nat)
    requires IsRun(Init, Next, run) && i < |run|
    ensures var s := run[i];
      && (forall k :: 0 <= k < |s.completed| ==> 1 <= s.completed[k] <= Largest(s.limit))
      && (!s.phase.Stopped? ==>
            && (s.stats.sent + s.stats.errors) % WORD == (s.stats.batched + Progress(s)) % WORD
            && Count(s.handled, Delivered) + Count(s.handled, Errored) == Total(s.completed) + Progress(s))
      && (s.phase.Stopped? ==>
            Total(s.completed)
            < Count(s.handled, Delivered) + Count(s.handled, Errored) + Count(s.handled, Discarded)
            <= Total(s.completed) + Largest(s.limit))
  {
    hide Exec, Enabled, QueuesOk, ShutdownOk;
    hide TakenOk, AcceptedOk, StopOk, EndOk, ResultsOk;
    InvOfRun(run);
    var s := run[i];
    CountsAddUp(s.handled);
    AddThenReduce(Count(s.handled, Delivered), s.stats.errors);
    AddThenReduce(Count(s.handled, Errored), Count(s.handled, Delivered));
    AddThenReduce(Total(s.completed), Progress(s));
  }

  /** A batch is closed only when it is full or the queue is empty. */
  lemma BatchesAreFull(run: seq<State>, i: nat)
    requires IsRun(Init, Next, run) && i + 1 < |run| && run[i].phase.Filling? && !run[i + 1].phase.Filling?
    ensures |run[i].batch| >= run[i].limit || run[i].data == []
    ensures run[i + 1].phase == Draining(|run[i].batch|) && run[i + 1].batch == run[i].batch
  {
    assert Next(run[i], run[i + 1]);
    var step :| Enabled(run[i], step) && run[i + 1] == Exec(run[i], step);
  }

  /** The counters say how many packets were delivered and how many failed, and what the batches were. */
  lemma CountersDescribeSends(run: seq<State>, i: nat)
    requires IsRun(Init, Next, run) && i < |run|
    ensures var s, handled := run[i], run[i].handled;
      && s.stats.sent == |set k | 0 <= k < |handled| && handled[k].fate.Delivered?| % WORD
      && s.stats.errors == |set k | 0 <= k < |handled| && handled[k].fate.Errored?| % WORD
      && s.stats.batches == |s.completed| % WORD && s.stats.batched == Total(s.completed) % WORD
  {
    hide Exec, Enabled, QueuesOk, ShutdownOk, BatchOk, FatesOk, ProgressOk;
    hide TakenOk, AcceptedOk, StopOk, EndOk, ResultsOk;
    InvOfRun(run);
    FatesHaveIndices(run[i].handled);
    assert Indices(WasDelivered, run[i].handled)
        == set k | 0 <= k < |run[i].handled| && run[i].handled[k].fate.Delivered?;
    assert Indices(WasErrored, run[i].handled)
        == set k | 0 <= k < |run[i].handled| && run[i].handled[k].fate.Errored?;
  }

  predicate WasDelivered(h: Handled) {
    h.fate.Delivered?
  }

  predicate WasErrored(h: Handled) {
    h.fate.Errored?
  }

  lemma {:induction false} FatesHaveIndices(handled: seq<Handled>)
    ensures Count(handled, Delivered) == |Indices(WasDelivered, handled)|
    ensures Count(handled, Errored) == |Indices(WasErrored, handled)|
  {
    if handled == [] {
      assert Indices(WasDelivered, handled) == {} && Indices(WasErrored, handled) == {};
    } else {
      hide Indices;
      var n := |handled| - 1;
      FatesHaveIndices(handled[..n]);
      assert handled == handled[..n] + [handled[n]];
      IndicesSnoc(WasDelivered, handled[..n], handled[n]);
      IndicesSnoc(WasErrored, handled[..n], handled[n]);
    }
  }

  /** The bytes counted are the payloads of the packets delivered. */
  lemma BytesDescribeSends(run: seq<State>, i: nat, bytes: Handled -> nat)
    requires IsRun(Init, Next, run) && i < |run|
    requires forall h :: bytes(h) == if h.fate.Delivered? then |h.item.packet.payload| else 0
    ensures run[i].stats.bytes == Sum(bytes, run[i].handled) % WORD
  {
    hide Exec, Enabled, QueuesOk, ShutdownOk, BatchOk, FatesOk, ProgressOk;
    hide TakenOk, AcceptedOk, StopOk, EndOk, ResultsOk;
    InvOfRun(run);
    BytesAreSummed(run[i].handled, bytes);
  }

  lemma {:induction false} BytesAreSummed(handled: seq<Handled>, bytes: Handled -> nat)
    requires forall h :: bytes(h) == if h.fate.Delivered? then |h.item.packet.payload| else 0
    ensures DeliveredBytes(handled) == Sum(bytes, handled)
  {
    if handled != [] {
      var n := |handled| - 1;
      BytesAreSummed(handled[..n], bytes);
      assert handled == handled[..n] + [handled[n]];
      SumSnoc(bytes, handled[..n], handled[n]);
    }
  }

  /**
  While the adapter listens so does the command task, so no Send is ever answered "Internal channel closed";
  and when the command task has taken the shutdown, every packet accepted before it has been forwarded.
  */
  lemma ShutdownIsLast(run: seq<State>, i: nat)
    requires IsRun(Init, Next, run) && i < |run|
    ensures run[i].adapterOn ==> run[i].forwarderOn
    ensures !run[i].forwarderOn ==> FromCommands(run[i].entered) == run[i].accepted
    ensures forall k :: 0 <= k < |run[i].internal| && run[i].internal[k].Shutdown? ==> k == |run[i].internal| - 1
  {
    hide Exec, Enabled, DataOk, BatchOk, FatesOk, StatsOk, ProgressOk;
    hide TakenOk, AcceptedOk, StopOk, EndOk, ResultsOk;
    InvOfRun(run);
    assert run[i].internal == [] ==> FromCommands(run[i].entered) + [] == FromCommands(run[i].entered);
  }

  lemma StepAfterShutdown(s: State, step: Step)
    requires Inv(s) && Enabled(s, step)
    ensures !s.forwarderOn ==> !Exec(s, step).forwarderOn && Exec(s, step).accepted == s.accepted
    ensures s.phase.Stopped? ==> Exec(s, step).phase.Stopped? && Exec(s, step).handled == s.handled
  {
  }

  /**
  Nothing is accepted, and so nothing forwarded, behind a shutdown. A data task that stopped handles nothing
  more, although commands may go on being accepted into the queue it no longer reads.
  */
  lemma {:induction false} NothingBehindTheEnd(run: seq<State>, i: nat, j: nat)
    requires IsRun(Init, Next, run) && i <= j < |run|
    ensures !run[i].forwarderOn ==>
              && !run[j].forwarderOn
              && run[j].accepted == run[i].accepted && FromCommands(run[j].entered) == run[i].accepted
    ensures run[i].phase.Stopped? ==> run[j].phase.Stopped? && run[j].handled == run[i].handled
  {
    hide Inv, Exec, Enabled, FromCommands;
    ShutdownIsLast(run, j);
    if i < j {
      NothingBehindTheEnd(run, i, j - 1);
      InvOfRun(run);
      assert Next(run[j - 1], run[j - 1 + 1]);
      var step :| Enabled(run[j - 1], step) && run[j] == Exec(run[j - 1], step);
      StepAfterShutdown(run[j - 1], step);
    }
  }

  // ---------- progress ----------

  /** A step of one of the three tasks, rather than of those who command or push. */
  predicate TaskStep(step: Step) {
    !step.Issue? && !step.Push?
  }

  /** Something is queued for a task that still runs, or a batch is under way. */
  predicate HasWork(s: State) {
    || (s.adapterOn && s.commands != []) || (s.forwarderOn && s.internal != [])
    || (!s.phase.Stopped? && s.data != []) || s.phase.Filling? || s.phase.Draining?
  }

  /** The tasks never wait for each other: while there is work, one of them can go on. */
  lemma TasksCanGoOn(s: State)
    requires HasWork(s)
    ensures exists step :: TaskStep(step) && Enabled(s, step)
  {
    if s.adapterOn && s.commands != [] {
      assert Enabled(s, Adapt);
    } else if s.forwarderOn && s.internal != [] {
      assert Enabled(s, Forward);
    } else if s.phase.Filling? {
      assert Enabled(s, Fill) || Enabled(s, CloseBatch);
    } else if s.phase.Draining? {
      assert Enabled(s, Drain(Done)) || Enabled(s, FinishBatch);
    } else {
      assert Enabled(s, StartBatch);
    }
  }

  function PhaseWork(phase: Phase): nat {
    match phase
    case Waiting => 0
    case Filling => 4
    case Draining(_) => 3
    case Stopped => 0
  }

  /** A bound on the steps that the tasks can make before something new is queued. */
  function Work(s: State): nat {
    (if s.adapterOn then 1 else 0) + 12 * |s.commands| + 10 * |s.internal| + 8 * |s.data| + 2 * |s.batch|
    + PhaseWork(s.phase)
  }

  lemma TasksUseUpWork(s: State, step: Step)
    requires Enabled(s, step) && TaskStep(step)
    ensures Work(Exec(s, step)) < Work(s)
  {
    if step.Adapt? {
    } else if step.Forward? {
    } else if step.Drain? {
    } else {
    }
  }

  /** So with nothing new queued, what is queued is dealt with in a bounded number of steps, whatever the schedule. */
  lemma {:induction false} QueuesAreDrained(run: seq<State>)
    requires |run| > 0 && forall i :: 0 <= i < |run| - 1 ==> TaskNext(run[i], run[i + 1])
    ensures |run| - 1 + Work(run[|run| - 1]) <= Work(run[0])
  {
    hide Exec, Enabled, Work;
    var last := |run| - 1;
    if last > 0 {
      QueuesAreDrained(run[..last]);
      assert TaskNext(run[last - 1], run[last - 1 + 1]);
      var step :| Enabled(run[last - 1], step) && TaskStep(step) && run[last] == Exec(run[last - 1], step);
      TasksUseUpWork(run[last - 1], step);
    }
  }

  ghost predicate TaskNext(s: State, s': State) {
    exists step :: Enabled(s, step) && TaskStep(step) && s' == Exec(s, step)
  }

  /** Anybody may push to the data queue at any time, and command the adapter while it listens. */
  lemma InputIsOpen(run: seq<State>, packet: Packet, command: Command) returns (longer: seq<State>)
    requires IsRun(Init, Next, run)
    ensures IsRun(Init, Next, longer)
    ensures var s, s' := run[|run| - 1], longer[|longer| - 1];
      && s'.pushed == s.pushed + [packet]
      && s'.issued == s.issued + (if s.adapterOn then [command] else [])
  {
    longer := GoOn(run, Push(packet));
    if run[|run| - 1].adapterOn {
      longer := GoOn(longer, Issue(command));
    }
  }

  lemma GoOn(run: seq<State>, step: Step) returns (longer: seq<State>)
    requires IsRun(Init, Next, run) && Enabled(run[|run| - 1], step)
    ensures IsRun(Init, Next, longer) && longer[|longer| - 1] == Exec(run[|run| - 1], step)
  {
    longer := run + [Exec(run[|run| - 1], step)];
    forall i | 0 <= i < |longer| - 1
      ensures Next(longer[i], longer[i + 1])
    {
      assert i < |run| - 1 ==> Next(run[i], run[i + 1]);
    }
  }

  // ---------- the data task by itself ----------

  function Fates(batch: seq<Item>, results: seq<SendResult>, count: nat): seq<Handled>
    requires count <= |batch| == |results|
  {
    seq(count, k requires 0 <= k < count => Handled(batch[k], FateOf(results[k])))
  }

  lemma FatesOneMore(batch: seq<Item>, results: seq<SendResult>, count: nat)
    requires count < |batch| == |results|
    ensures Fates(batch, results, count) + [Handled(batch[count], FateOf(results[count]))]
         == Fates(batch, results, count + 1)
    ensures Fates(batch, results, 0) == []
  {
  }

  /** The data task and its statistics; `handled` only observes. */
  class DataTask {
    const limit: nat
    var data: seq<Item>
    var batch: seq<Item>
    var stats: Stats
    var completed: seq<nat>
    ghost var handled: seq<Handled>

    ghost predicate Valid()
      reads this
    {
      SendStatsOk(stats, handled) && BatchStatsOk(stats, completed)
    }

    constructor (limit: nat, data: seq<Item>)
      ensures Valid() && this.limit == limit && this.data == data && batch == [] && completed == [] && handled == []
    {
      this.limit, this.data, batch, stats, completed, handled := limit, data, [], Stats(0, 0, 0, 0, 0), [], [];
    }

    /** Takes one packet and then as many more as there are and as the limit allows. */
    method Collect()
      requires Valid() && data != [] && batch == []
      modifies `data, `batch
      ensures Valid()
      ensures batch + data == old(data)
      ensures |batch| == if Largest(limit) <= |old(data)| then Largest(limit) else |old(data)|
    {
      batch, data := [data[0]], data[1..];
      while |batch| < limit && data != []
        invariant batch + data == old(data) && 1 <= |batch| <= Largest(limit)
        decreases |data|
      {
        MoveOne([], batch, data);
        batch, data := batch + [data[0]], data[1..];
      }
    }

    /** One round of the loop over a batch. */
    method SendNext(result: SendResult) returns (stop: bool)
      requires Valid() && batch != []
      modifies `batch, `stats, `handled
      ensures Valid() && batch == old(batch)[1..] && stop == Stops(result)
      ensures handled == old(handled) + [Handled(old(batch)[0], FateOf(result))]
    {
      hide SendStatsOk, BatchStatsOk;
      SendOne(stats, handled, batch[0], result);
      SendLeavesBatches(stats, batch[0].packet, result, completed);
      stats := RecordSend(stats, batch[0].packet, result);
      handled := handled + [Handled(batch[0], FateOf(result))];
      batch := batch[1..];
      stop := Stops(result);
    }

    /**
    Sends a batch packet by packet until a result stops the data task; `results` are what the connection will
    answer. A batch that stops it is not recorded, and the packets behind the stop are dropped.
    */
    method Process(results: seq<SendResult>) returns (stop: bool)
      requires Valid() && |results| == |batch|
      modifies `batch, `stats, `completed, `handled
      ensures Valid() && batch == []
      ensures stop <==> exists k :: 0 <= k < |results| && (results[k] == Disconnected || results[k] == Failed(false))
      ensures |old(handled)| <= |handled| && handled[..|old(handled)|] == old(handled)
      ensures var sent := |handled| - |old(handled)|;
        && sent <= |results|
        && (forall k :: 0 <= k < sent - 1 ==> results[k] == Done || results[k] == Failed(true))
        && (sent < |results| ==> sent > 0 && (results[sent - 1] == Disconnected || results[sent - 1] == Failed(false)))
      ensures forall k :: 0 <= k < |handled| - |old(handled)| ==>
                && handled[|old(handled)| + k].item == old(batch)[k]
                && (handled[|old(handled)| + k].fate.Delivered? <==> results[k].Done?)
                && (handled[|old(handled)| + k].fate.Errored? <==> results[k].Failed?)
      ensures completed == if stop then old(completed) else old(completed) + [|old(batch)|]
    {
      hide SendStatsOk, BatchStatsOk;
      ghost var all := batch;
      var size, k := |batch|, 0;
      stop := false;
      while k < size && !stop
        invariant k <= size && batch == all[k..] && completed == old(completed) && Valid()
        invariant forall i :: 0 <= i < k ==> (Stops(results[i]) <==> stop && i == k - 1)
        invariant stop ==> k > 0
        invariant handled == old(handled) + Fates(all, results, k)
        decreases size - k, !stop
      {
        hide SendStatsOk, BatchStatsOk, Fates;
        FatesOneMore(all, results, k);
        stop := SendNext(results[k]);
        k := k + 1;
      }
      assert forall i :: 0 <= i < k - 1 ==> !Stops(results[i]);
      assert stop ==> Stops(results[k - 1]);
      batch := [];
      if !stop {
        FinishKeepsStats(stats, completed, size);
        BatchLeavesSends(stats, size, handled);
        stats := RecordBatch(stats, size);
        completed := completed + [size];
      }
    }
  }

  lemma SendOne(stats: Stats, handled: seq<Handled>, item: Item, result: SendResult)
    requires SendStatsOk(stats, handled)
    ensures SendStatsOk(RecordSend(stats, item.packet, result), handled + [Handled(item, FateOf(result))])
  {
    var h := Handled(item, FateOf(result));
    HandleOne(handled, h, Delivered);
    HandleOne(handled, h, Errored);
    AddThenReduce(Count(handled, Delivered), 1);
    AddThenReduce(Count(handled, Errored), 1);
    AddThenReduce(DeliveredBytes(handled), |item.packet.payload|);
  }
}
