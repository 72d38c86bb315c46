/**
The sharded copy-on-write hash map as a step system: any number of threads interleave at every atomic
access to a shard pointer or a counter. A published shard map gets a pointer no earlier map had, which
is what epoch reclamation provides while a reader is pinned. `compare_exchange_weak` may fail at will.
*/
module LockFreeMap {
  import opened Prelude
  import opened Counting
  import opened Words

  const MAX_RETRIES: nat := 100

  /** The shards of a map: their number, and the masked hash that assigns each key to one of them. */
  datatype Layout<!K> = Layout(count: nat, shardOf: K -> nat)

  datatype Op<K, V> = Get(key: K) | Insert(key: K, value: V) | Remove(key: K)

  /** An operation in progress; `start` is the length of the history when it was invoked. */
  datatype Call<K, V> = Call(id: nat, op: Op<K, V>, start: nat)

  /** One linearization point: a successful CAS or the load of a `get`. */
  datatype Event<K, V> = Event(id: nat, op: Op<K, V>, out: Option<V>)

  datatype Result<V> = Returned(value: Option<V>) | RetriesExhausted

  datatype Pc<K, V> =
    | Idle
    | Invoked(call: Call<K, V>, retries: nat)
    | Cloned(call: Call<K, V>, retries: nat, ptr: nat, edited: map<K, V>, prior: Option<V>, seen: nat)
    | CasFailed(call: Call<K, V>, retries: nat)
    | CasDone(call: Call<K, V>, prior: Option<V>, lin: nat)
    | Returning(call: Call<K, V>, result: Result<V>, lin: nat)
    | Walking(start: nat, got: seq<map<K, V>>, at: seq<nat>)

  datatype Shard<K, V> = Shard(ptr: nat, content: map<K, V>, version: nat)

  /** A call that has returned; `finish` is the length of the history at its return. */
  datatype Completed<K, V> = Completed(call: Call<K, V>, result: Result<V>, lin: nat, finish: nat)

  /**
  `asked` (what each call was invoked with), `history`, `log`, `fails` (failed CASes of each call), `failedCas` and
  `gaveUp` only observe the run; the code has the shards, what each thread holds, and the counters `version` and
  `casRetries`.
  */
  datatype State<K, V> = State(
    shards: seq<Shard<K, V>>,
    threads: seq<Pc<K, V>>,
    nextPtr: nat,
    nextId: nat,
    asked: map<nat, Op<K, V>>,
    history: seq<Event<K, V>>,
    log: seq<Completed<K, V>>,
    fails: map<nat, nat>,
    failedCas: nat,
    casRetries: nat,
    gaveUp: nat)

  datatype Step<K, V> =
    | Invoke(t: nat, op: Op<K, V>)
    | LoadForGet(t: nat)
    | LoadForWrite(t: nat)
    | CasSucceed(t: nat)
    | CasFail(t: nat)
    | CountRetry(t: nat)
    | BumpVersion(t: nat)
    | Return(t: nat)
    | WalkStart(t: nat)
    | WalkLoad(t: nat)
    | WalkEnd(t: nat)

  // ---------- the sequential map ----------

  function Edit<K, V>(op: Op<K, V>, m: map<K, V>): map<K, V> {
    match op
    case Get(_) => m
    case Insert(key, value) => m[key := value]
    case Remove(key) => m - {key}
  }

  ghost function Replay<K, V>(history: seq<Event<K, V>>): map<K, V> {
    if history == [] then map[]
    else Edit(history[|history| - 1].op, Replay(history[..|history| - 1]))
  }

  /** Every event returned what the sequential map held at its key just before it. */
  ghost predicate Legal<K, V>(history: seq<Event<K, V>>) {
    forall i :: 0 <= i < |history| ==> history[i].out == Lookup(Replay(history[..i]), history[i].op.key)
  }

  ghost function InShard<K, V>(layout: Layout<K>, m: map<K, V>, i: nat): map<K, V> {
    map k | k in m && layout.shardOf(k) == i :: m[k]
  }

  ghost predicate WritesShard<K, V>(layout: Layout<K>, op: Op<K, V>, i: nat) {
    !op.Get? && layout.shardOf(op.key) == i
  }

  /** The number of successful CASes on shard `i`. */
  ghost function WritesIn<K, V>(layout: Layout<K>, history: seq<Event<K, V>>, i: nat): nat {
    if history == [] then 0
    else
      WritesIn(layout, history[..|history| - 1], i)
      + (if WritesShard(layout, history[|history| - 1].op, i) then 1 else 0)
  }

  // ---------- the steps ----------

  ghost function Fails<K, V>(s: State<K, V>, id: nat): nat {
    if id in s.fails then s.fails[id] else 0
  }

  ghost predicate WellFormed<K(!new)>(layout: Layout<K>) {
    layout.count > 0 && forall k :: layout.shardOf(k) < layout.count
  }

  ghost predicate Init<K, V>(layout: Layout<K>, s: State<K, V>) {
    && |s.shards| == layout.count
    && (forall i :: 0 <= i < |s.shards| ==>
          s.shards[i].content == map[] && s.shards[i].version == 0 && s.shards[i].ptr < s.nextPtr)
    && (forall t :: 0 <= t < |s.threads| ==> s.threads[t].Idle?)
    && s.asked == map[] && s.history == [] && s.log == [] && s.fails == map[]
    && s.failedCas == s.casRetries == s.gaveUp == 0
  }

  ghost predicate Enabled<K, V>(layout: Layout<K>, s: State<K, V>, step: Step<K, V>) {
    && |s.shards| == layout.count
    && step.t < |s.threads|
    && var pc := s.threads[step.t];
       && (pc.Invoked? || pc.Cloned? || pc.CasDone? ==> layout.shardOf(pc.call.op.key) < |s.shards|)
       && match step
          case Invoke(_, _) => pc.Idle?
          case LoadForGet(_) => pc.Invoked? && pc.call.op.Get?
          case LoadForWrite(_) => pc.Invoked? && !pc.call.op.Get?
          case CasSucceed(_) => pc.Cloned? && s.shards[layout.shardOf(pc.call.op.key)].ptr == pc.ptr
          case CasFail(_) => pc.Cloned?
          case CountRetry(_) => pc.CasFailed?
          case BumpVersion(_) => pc.CasDone?
          case Return(_) => pc.Returning?
          case WalkStart(_) => pc.Idle?
          case WalkLoad(_) => pc.Walking? && |pc.got| < |s.shards|
          case WalkEnd(_) => pc.Walking? && |pc.got| == |s.shards|
  }

  ghost function Exec<K, V>(layout: Layout<K>, s: State<K, V>, step: Step<K, V>): State<K, V>
    requires Enabled(layout, s, step)
  {
    var t := step.t;
    var pc := s.threads[t];
    match step
    case Invoke(_, op) =>
      s.(threads := s.threads[t := Invoked(Call(s.nextId, op, |s.history|), 0)],
         nextId := s.nextId + 1, asked := s.asked[s.nextId := op])
    case LoadForGet(_) =>
      var out := Lookup(s.shards[layout.shardOf(pc.call.op.key)].content, pc.call.op.key);
      s.(threads := s.threads[t := Returning(pc.call, Returned(out), |s.history|)],
         history := s.history + [Event(pc.call.id, pc.call.op, out)])
    case LoadForWrite(_) =>
      var shard := s.shards[layout.shardOf(pc.call.op.key)];
      s.(threads := s.threads[t := Cloned(pc.call, pc.retries, shard.ptr, Edit(pc.call.op, shard.content),
                                          Lookup(shard.content, pc.call.op.key), |s.history|)])
    case CasSucceed(_) =>
      var i := layout.shardOf(pc.call.op.key);
      s.(shards := s.shards[i := s.shards[i].(ptr := s.nextPtr, content := pc.edited)],
         nextPtr := s.nextPtr + 1,
         threads := s.threads[t := CasDone(pc.call, pc.prior, |s.history|)],
         history := s.history + [Event(pc.call.id, pc.call.op, pc.prior)])
    case CasFail(_) =>
      var failed := s.(failedCas := s.failedCas + 1, fails := s.fails[pc.call.id := Fails(s, pc.call.id) + 1]);
      if pc.retries + 1 >= MAX_RETRIES then
        failed.(threads := s.threads[t := Returning(pc.call, RetriesExhausted, 0)], gaveUp := s.gaveUp + 1)
      else
        failed.(threads := s.threads[t := CasFailed(pc.call, pc.retries + 1)])
    case CountRetry(_) =>
      s.(threads := s.threads[t := Invoked(pc.call, pc.retries)], casRetries := (s.casRetries + 1) % WORD)
    case BumpVersion(_) =>
      var i := layout.shardOf(pc.call.op.key);
      s.(shards := s.shards[i := s.shards[i].(version := (s.shards[i].version + 1) % WORD)],
         threads := s.threads[t := Returning(pc.call, Returned(pc.prior), pc.lin)])
    case Return(_) =>
      s.(threads := s.threads[t := Idle],
         log := s.log + [Completed(pc.call, pc.result, pc.lin, |s.history|)])
    case WalkStart(_) =>
      s.(threads := s.threads[t := Walking(|s.history|, [], [])])
    case WalkLoad(_) =>
      s.(threads := s.threads[t := pc.(got := pc.got + [s.shards[|pc.got|].content], at := pc.at + [|s.history|])])
    case WalkEnd(_) =>
      s.(threads := s.threads[t := Idle])
  }

  ghost predicate Next<K(!new), V(!new)>(layout: Layout<K>, s: State<K, V>, s': State<K, V>) {
    exists step :: Enabled(layout, s, step) && s' == Exec(layout, s, step)
  }

  // ---------- the invariant ----------

  ghost predicate FreshId<K, V>(history: seq<Event<K, V>>, id: nat) {
    forall j :: 0 <= j < |history| ==> history[j].id != id
  }

  /** The call took effect at position `lin` of the history, after its invocation, with result `out`. */
  ghost predicate TookEffect<K, V>(history: seq<Event<K, V>>, call: Call<K, V>, lin: nat, out: Option<V>) {
    call.start <= lin < |history| && history[lin] == Event(call.id, call.op, out)
  }

  ghost predicate Accounted<K, V>(history: seq<Event<K, V>>, call: Call<K, V>, result: Result<V>, lin: nat) {
    match result
    case Returned(out) => TookEffect(history, call, lin, out)
    case RetriesExhausted => FreshId(history, call.id)
  }

  ghost predicate HasCall<K, V>(pc: Pc<K, V>) {
    !pc.Idle? && !pc.Walking?
  }

  /** A call that returned lost fewer than `MAX_RETRIES` CASes; one that gave up lost exactly that many. */
  ghost predicate TriedEnough<K, V>(s: State<K, V>, call: Call<K, V>, result: Result<V>) {
    if result.Returned? then Fails(s, call.id) < MAX_RETRIES else Fails(s, call.id) == MAX_RETRIES
  }

  /** The maps a traversal has collected: entry `j` is shard `j` as it was `at[j]` events into the history. */
  ghost predicate Collected<K, V>(
    layout: Layout<K>, history: seq<Event<K, V>>, start: nat, got: seq<map<K, V>>, at: seq<nat>)
  {
    && |got| == |at|
    && (forall j :: 0 <= j < |at| ==> start <= at[j] <= |history|)
    && (forall j :: 0 <= j < |got| ==> got[j] == InShard(layout, Replay(history[..at[j]]), j))
  }

  ghost predicate PcOk<K, V>(layout: Layout<K>, s: State<K, V>, pc: Pc<K, V>) {
    && (HasCall(pc) ==> pc.call.id < s.nextId && pc.call.start <= |s.history|)
    && (pc.Invoked? || pc.Cloned? || pc.CasFailed? ==>
          pc.retries == Fails(s, pc.call.id) < MAX_RETRIES && FreshId(s.history, pc.call.id))
    && match pc
       case Idle => true
       case Invoked(_, _) => true
       case Cloned(call, _, ptr, edited, prior, seen) =>
         var i := layout.shardOf(call.op.key);
         && !call.op.Get?
         && i < |s.shards|
         && ptr < s.nextPtr
         && seen <= |s.history|
         && (s.shards[i].ptr == ptr ==>
               edited == Edit(call.op, s.shards[i].content) && prior == Lookup(s.shards[i].content, call.op.key))
         && (s.shards[i].ptr == ptr <==> WritesIn(layout, s.history, i) == WritesIn(layout, s.history[..seen], i))
         && WritesIn(layout, s.history[..seen], i) <= WritesIn(layout, s.history, i)
       case CasFailed(_, _) => true
       case CasDone(call, prior, lin) =>
         !call.op.Get? && TookEffect(s.history, call, lin, prior) && Fails(s, call.id) < MAX_RETRIES
       case Returning(call, result, lin) =>
         Accounted(s.history, call, result, lin) && TriedEnough(s, call, result)
       case Walking(start, got, at) =>
         start <= |s.history| && |got| <= layout.count && Collected(layout, s.history, start, got, at)
  }

  ghost predicate ShardsOk<K, V>(layout: Layout<K>, s: State<K, V>) {
    && |s.shards| == layout.count
    && forall i :: 0 <= i < |s.shards| ==>
         && s.shards[i].ptr < s.nextPtr
         && s.shards[i].content == InShard(layout, Replay(s.history), i)
  }

  ghost predicate HistoryOk<K, V>(s: State<K, V>) {
    && Legal(s.history)
    && (forall i :: 0 <= i < |s.history| ==> s.history[i].id < s.nextId)
    && (forall i, j :: 0 <= i < j < |s.history| ==> s.history[i].id != s.history[j].id)
  }

  ghost predicate IdsOk<K, V>(s: State<K, V>) {
    && (forall id :: id in s.fails ==> id < s.nextId)
    && (forall t, u :: 0 <= t < u < |s.threads| && HasCall(s.threads[t]) && HasCall(s.threads[u]) ==>
          s.threads[t].call.id != s.threads[u].call.id)
    && (forall t, l :: 0 <= t < |s.threads| && 0 <= l < |s.log| && HasCall(s.threads[t]) ==>
          s.threads[t].call.id != s.log[l].call.id)
  }

  ghost predicate LogOk<K, V>(s: State<K, V>) {
    forall l :: 0 <= l < |s.log| ==>
      && s.log[l].call.id < s.nextId
      && s.log[l].finish <= |s.history|
      && Accounted(s.history, s.log[l].call, s.log[l].result, s.log[l].lin)
      && TriedEnough(s, s.log[l].call, s.log[l].result)
      && (s.log[l].result.Returned? ==> s.log[l].lin < s.log[l].finish)
  }

  ghost function BumpsOwed<K, V>(layout: Layout<K>, i: nat): Pc<K, V> -> nat {
    (pc: Pc<K, V>) => if pc.CasDone? && layout.shardOf(pc.call.op.key) == i then 1 else 0
  }

  ghost function RetryOwed<K, V>(): Pc<K, V> -> nat {
    (pc: Pc<K, V>) => if pc.CasFailed? then 1 else 0
  }

  ghost predicate SameWord(a: nat, b: nat) {
    a % WORD == b % WORD
  }

  /** Shard versions count successful CASes, up to the increments still owed and the width of a word. */
  ghost predicate VersionOk<K, V>(layout: Layout<K>, s: State<K, V>, i: nat)
    requires i < |s.shards|
  {
    SameWord(s.shards[i].version + Sum(BumpsOwed(layout, i), s.threads), WritesIn(layout, s.history, i))
  }

  ghost predicate VersionsOk<K, V>(layout: Layout<K>, s: State<K, V>) {
    forall i :: 0 <= i < |s.shards| ==> VersionOk(layout, s, i)
  }

  ghost predicate RetriesOk<K, V>(s: State<K, V>) {
    SameWord(s.casRetries + s.gaveUp + Sum(RetryOwed(), s.threads), s.failedCas)
  }

  ghost predicate AskedFor<K, V>(s: State<K, V>, id: nat, op: Op<K, V>) {
    id < s.nextId && id in s.asked && s.asked[id] == op
  }

  /** Every call does what it was invoked with. */
  ghost predicate AskedOk<K, V>(s: State<K, V>) {
    && (forall t :: 0 <= t < |s.threads| && HasCall(s.threads[t]) ==>
          AskedFor(s, s.threads[t].call.id, s.threads[t].call.op))
    && (forall l :: 0 <= l < |s.log| ==> AskedFor(s, s.log[l].call.id, s.log[l].call.op))
    && (forall i :: 0 <= i < |s.history| ==> AskedFor(s, s.history[i].id, s.history[i].op))
  }

  ghost function InCall<K, V>(): Pc<K, V> -> nat {
    (pc: Pc<K, V>) => if HasCall(pc) then 1 else 0
  }

  /** Every call that was asked for is in progress or has returned. */
  ghost predicate CallsCounted<K, V>(s: State<K, V>) {
    && |s.log| + Sum(InCall(), s.threads) == |s.asked|
    && forall id :: id in s.asked ==> id < s.nextId
  }

  ghost predicate Inv<K, V>(layout: Layout<K>, s: State<K, V>) {
    && ShardsOk(layout, s)
    && HistoryOk(s)
    && IdsOk(s)
    && LogOk(s)
    && VersionsOk(layout, s)
    && RetriesOk(s)
    && AskedOk(s)
    && CallsCounted(s)
    && forall t :: 0 <= t < |s.threads| ==> PcOk(layout, s, s.threads[t])
  }
}
