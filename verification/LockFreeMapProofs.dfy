/** What every interleaving of the lock-free map keeps, and what that says to its callers. */
module LockFreeMapProofs {
  import opened Prelude
  import opened Counting
  import opened LockFreeMap
  import opened Words

  // ---------- one event at a time ----------

  lemma Extend<K, V>(layout: Layout<K>, history: seq<Event<K, V>>, e: Event<K, V>)
    ensures Replay(history + [e]) == Edit(e.op, Replay(history))
    ensures forall i :: WritesIn(layout, history + [e], i)
                     == WritesIn(layout, history, i) + (if WritesShard(layout, e.op, i) then 1 else 0)
    ensures forall n :: 0 <= n <= |history| ==> (history + [e])[..n] == history[..n]
  {
    assert (history + [e])[..|history|] == history;
  }

  lemma EditInShard<K, V>(layout: Layout<K>, op: Op<K, V>, m: map<K, V>, i: nat)
    ensures WritesShard(layout, op, i) ==> InShard(layout, Edit(op, m), i) == Edit(op, InShard(layout, m, i))
    ensures !WritesShard(layout, op, i) ==> InShard(layout, Edit(op, m), i) == InShard(layout, m, i)
  {
  }

  /** The threads that did not move still fit after a step that leaves shards and history alone. */
  lemma PcOkSameHistory<K, V>(layout: Layout<K>, s: State<K, V>, s': State<K, V>, pc: Pc<K, V>)
    requires PcOk(layout, s, pc)
    requires s'.history == s.history && s'.nextId >= s.nextId && s'.nextPtr >= s.nextPtr
    requires HasCall(pc) ==> Fails(s', pc.call.id) == Fails(s, pc.call.id)
    requires |s'.shards| == |s.shards|
    requires forall i :: 0 <= i < |s.shards| ==>
               s'.shards[i].ptr == s.shards[i].ptr && s'.shards[i].content == s.shards[i].content
    ensures PcOk(layout, s', pc)
  {
  }

  /** The threads that did not move still fit after a `get` has been added to the history. */
  lemma PcOkAfterGet<K, V>(layout: Layout<K>, s: State<K, V>, s': State<K, V>, pc: Pc<K, V>, e: Event<K, V>)
    requires PcOk(layout, s, pc)
    requires s'.shards == s.shards && s'.fails == s.fails && s'.nextId == s.nextId && s'.nextPtr == s.nextPtr
    requires e.op.Get? && s'.history == s.history + [e]
    requires HasCall(pc) ==> pc.call.id != e.id
    ensures PcOk(layout, s', pc)
  {
    Extend(layout, s.history, e);
  }

  /** The threads that did not move still fit after a CAS by another thread. */
  lemma PcOkAfterCas<K, V>(layout: Layout<K>, s: State<K, V>, s': State<K, V>, pc: Pc<K, V>, e: Event<K, V>)
    requires PcOk(layout, s, pc)
    requires !e.op.Get? && s'.history == s.history + [e]
    requires layout.shardOf(e.op.key) < |s.shards|
    requires |s'.shards| == |s.shards| && s'.fails == s.fails && s'.nextId == s.nextId && s'.nextPtr == s.nextPtr + 1
    requires s'.shards[layout.shardOf(e.op.key)].ptr == s.nextPtr
    requires forall i :: 0 <= i < |s.shards| && i != layout.shardOf(e.op.key) ==> s'.shards[i] == s.shards[i]
    requires HasCall(pc) ==> pc.call.id != e.id
    ensures PcOk(layout, s', pc)
  {
    Extend(layout, s.history, e);
  }

  // ---------- the pieces of the invariant, step by step ----------

  ghost predicate Grows<K, V>(step: Step<K, V>) {
    step.LoadForGet? || step.CasSucceed?
  }

  ghost function NewEvent<K, V>(layout: Layout<K>, s: State<K, V>, step: Step<K, V>): Event<K, V>
    requires Enabled(layout, s, step) && Grows(step)
  {
    Exec(layout, s, step).history[|s.history|]
  }

  lemma KeepsShards<K, V>(layout: Layout<K>, s: State<K, V>, step: Step<K, V>)
    requires ShardsOk(layout, s) && Enabled(layout, s, step) && PcOk(layout, s, s.threads[step.t])
    ensures ShardsOk(layout, Exec(layout, s, step))
  {
    var s' := Exec(layout, s, step);
    if Grows(step) {
      var e := NewEvent(layout, s, step);
      Extend(layout, s.history, e);
      forall i | 0 <= i < |s.shards|
        ensures s'.shards[i].content == InShard(layout, Replay(s'.history), i) && s'.shards[i].ptr < s'.nextPtr
      {
        EditInShard(layout, e.op, Replay(s.history), i);
      }
    } else {
      ShardsUntouched(layout, s, step);
    }
  }

  lemma ShardsUntouched<K, V>(layout: Layout<K>, s: State<K, V>, step: Step<K, V>)
    requires Enabled(layout, s, step) && !Grows(step)
    ensures var s' := Exec(layout, s, step);
      && s'.history == s.history && s'.nextPtr == s.nextPtr && |s'.shards| == |s.shards|
      && forall i :: 0 <= i < |s.shards| ==>
           s'.shards[i].ptr == s.shards[i].ptr && s'.shards[i].content == s.shards[i].content
  {
    if step.BumpVersion? {
    } else {
    }
  }

  /** The new event returned what the sequential map held, under an id no event had. */
  lemma NewEventLegal<K, V>(layout: Layout<K>, s: State<K, V>, step: Step<K, V>)
    requires ShardsOk(layout, s) && Enabled(layout, s, step) && Grows(step)
    requires PcOk(layout, s, s.threads[step.t])
    ensures var e := NewEvent(layout, s, step);
            && Exec(layout, s, step).history == s.history + [e]
            && e.out == Lookup(Replay(s.history), e.op.key)
            && e.id < s.nextId && FreshId(s.history, e.id)
  {
    var e := NewEvent(layout, s, step);
    assert e.out == Lookup(s.shards[layout.shardOf(e.op.key)].content, e.op.key);
  }

  lemma KeepsHistory<K, V>(layout: Layout<K>, s: State<K, V>, step: Step<K, V>)
    requires HistoryOk(s) && ShardsOk(layout, s) && Enabled(layout, s, step)
    requires PcOk(layout, s, s.threads[step.t])
    ensures HistoryOk(Exec(layout, s, step))
  {
    if Grows(step) {
      var s' := Exec(layout, s, step);
      var e := NewEvent(layout, s, step);
      NewEventLegal(layout, s, step);
      LegalExtend(layout, s.history, e);
    }
  }

  lemma LegalExtend<K, V>(layout: Layout<K>, history: seq<Event<K, V>>, e: Event<K, V>)
    requires Legal(history) && e.out == Lookup(Replay(history), e.op.key)
    ensures Legal(history + [e])
  {
    Extend(layout, history, e);
  }

  /** A thread that moves keeps its call, drops it, or takes the next fresh one. */
  lemma MovedCall<K, V>(layout: Layout<K>, s: State<K, V>, step: Step<K, V>)
    requires Enabled(layout, s, step)
    ensures var pc, pc' := s.threads[step.t], Exec(layout, s, step).threads[step.t];
            HasCall(pc') ==> if step.Invoke? then pc'.call.id == s.nextId else HasCall(pc) && pc'.call == pc.call
    ensures forall u :: 0 <= u < |s.threads| && u != step.t ==> Exec(layout, s, step).threads[u] == s.threads[u]
    ensures var s' := Exec(layout, s, step);
            s'.log == s.log
            || (step.Return? && !HasCall(s'.threads[step.t]) && |s'.log| == |s.log| + 1
                && s'.log[..|s.log|] == s.log && s'.log[|s.log|].call == s.threads[step.t].call)
  {
  }

  lemma KeepsIds<K, V>(layout: Layout<K>, s: State<K, V>, step: Step<K, V>)
    requires IdsOk(s) && Enabled(layout, s, step)
    requires forall t :: 0 <= t < |s.threads| && HasCall(s.threads[t]) ==> s.threads[t].call.id < s.nextId
    requires forall l :: 0 <= l < |s.log| ==> s.log[l].call.id < s.nextId
    ensures IdsOk(Exec(layout, s, step))
  {
    var s' := Exec(layout, s, step);
    MovedCall(layout, s, step);
    forall t, l | 0 <= t < |s'.threads| && 0 <= l < |s'.log| && HasCall(s'.threads[t])
      ensures s'.threads[t].call.id != s'.log[l].call.id
    {
      if l < |s.log| {
        assert s'.log[l] == s'.log[..|s.log|][l];
      }
    }
  }

  ghost predicate LogEntryOk<K, V>(s: State<K, V>, done: Completed<K, V>) {
    && done.call.id < s.nextId
    && done.finish <= |s.history|
    && Accounted(s.history, done.call, done.result, done.lin)
    && TriedEnough(s, done.call, done.result)
    && (done.result.Returned? ==> done.lin < done.finish)
  }

  lemma KeepsLogEntry<K, V>(layout: Layout<K>, s: State<K, V>, step: Step<K, V>, done: Completed<K, V>)
    requires LogEntryOk(s, done) && Enabled(layout, s, step)
    requires HasCall(s.threads[step.t]) ==> s.threads[step.t].call.id != done.call.id
    ensures LogEntryOk(Exec(layout, s, step), done)
  {
    if Grows(step) {
      Extend(layout, s.history, NewEvent(layout, s, step));
    } else if step.CasFail? {
    } else {
      assert Exec(layout, s, step).history == s.history && Exec(layout, s, step).fails == s.fails;
    }
  }

  lemma KeepsLog<K, V>(layout: Layout<K>, s: State<K, V>, step: Step<K, V>)
    requires LogOk(s) && IdsOk(s) && Enabled(layout, s, step)
    requires PcOk(layout, s, s.threads[step.t])
    ensures LogOk(Exec(layout, s, step))
  {
    var s' := Exec(layout, s, step);
    MovedCall(layout, s, step);
    forall l | 0 <= l < |s'.log|
      ensures LogEntryOk(s', s'.log[l])
    {
      if l < |s.log| {
        assert s'.log[l] == s.log[l];
        KeepsLogEntry(layout, s, step, s.log[l]);
      }
    }
  }

  lemma OtherPcOk<K, V>(layout: Layout<K>, s: State<K, V>, step: Step<K, V>, t: nat)
    requires Enabled(layout, s, step) && IdsOk(s)
    requires t < |s.threads| && t != step.t
    requires PcOk(layout, s, s.threads[t]) && PcOk(layout, s, s.threads[step.t])
    ensures PcOk(layout, Exec(layout, s, step), s.threads[t])
  {
    var s' := Exec(layout, s, step);
    if step.LoadForGet? {
      PcOkAfterGet(layout, s, s', s.threads[t], NewEvent(layout, s, step));
    } else if step.CasSucceed? {
      PcOkAfterCas(layout, s, s', s.threads[t], NewEvent(layout, s, step));
    } else {
      PcOkSameHistory(layout, s, s', s.threads[t]);
    }
  }

  lemma KeepsPcs<K, V>(layout: Layout<K>, s: State<K, V>, step: Step<K, V>, t: nat)
    requires Inv(layout, s) && Enabled(layout, s, step)
    requires t < |s.threads|
    ensures PcOk(layout, Exec(layout, s, step), Exec(layout, s, step).threads[t])
  {
    assert PcOk(layout, s, s.threads[step.t]) && PcOk(layout, s, s.threads[t]);
    if t != step.t {
      MovedCall(layout, s, step);
      OtherPcOk(layout, s, step, t);
    } else {
      MovedPcOk(layout, s, step);
    }
  }

  lemma MovedPcOk<K, V>(layout: Layout<K>, s: State<K, V>, step: Step<K, V>)
    requires ShardsOk(layout, s) && HistoryOk(s) && IdsOk(s) && Enabled(layout, s, step)
    requires PcOk(layout, s, s.threads[step.t])
    ensures PcOk(layout, Exec(layout, s, step), Exec(layout, s, step).threads[step.t])
  {
    assert s.history[..|s.history|] == s.history;
    if Grows(step) {
      MovedPcOkGrowing(layout, s, step);
    } else if step.WalkLoad? {
      WalkOneMore(layout, s, step);
    } else if step.LoadForWrite? {
      CloneOk(layout, s, step);
    }
  }

  lemma MovedPcOkGrowing<K, V>(layout: Layout<K>, s: State<K, V>, step: Step<K, V>)
    requires Enabled(layout, s, step) && Grows(step)
    requires PcOk(layout, s, s.threads[step.t])
    ensures PcOk(layout, Exec(layout, s, step), Exec(layout, s, step).threads[step.t])
  {
    Extend(layout, s.history, NewEvent(layout, s, step));
  }

  lemma CloneOk<K, V>(layout: Layout<K>, s: State<K, V>, step: Step<K, V>)
    requires ShardsOk(layout, s) && Enabled(layout, s, step) && step.LoadForWrite?
    requires PcOk(layout, s, s.threads[step.t])
    ensures PcOk(layout, Exec(layout, s, step), Exec(layout, s, step).threads[step.t])
  {
    assert s.history[..|s.history|] == s.history;
  }

  lemma WalkOneMore<K, V>(layout: Layout<K>, s: State<K, V>, step: Step<K, V>)
    requires ShardsOk(layout, s) && Enabled(layout, s, step) && step.WalkLoad?
    requires PcOk(layout, s, s.threads[step.t])
    ensures PcOk(layout, Exec(layout, s, step), Exec(layout, s, step).threads[step.t])
  {
    assert s.history[..|s.history|] == s.history;
  }

  // The only facts about remainders that the counters need.
  lemma SameWordNext(a: nat, b: nat)
    ensures SameWord(a, b) ==> SameWord(a + 1, b + 1)
  {
    AddThenReduce(a, 1);
    AddThenReduce(b, 1);
  }

  lemma SameWordWrap(a: nat, b: nat)
    ensures SameWord((a + 1) % WORD + b, a + b + 1)
  {
    AddThenReduce(a + 1, b);
  }

  /** What a step does to one shard's version and to the increments still owed to it. */
  lemma VersionStep<K, V>(layout: Layout<K>, s: State<K, V>, step: Step<K, V>, i: nat)
    requires Enabled(layout, s, step) && i < |s.shards|
    ensures var s', owed := Exec(layout, s, step), BumpsOwed<K, V>(layout, i);
            var pc := s.threads[step.t];
            && |s'.shards| == |s.shards|
            && if step.CasSucceed? && layout.shardOf(pc.call.op.key) == i then
                 s'.shards[i].version == s.shards[i].version && Sum(owed, s'.threads) == Sum(owed, s.threads) + 1
               else if step.BumpVersion? && layout.shardOf(pc.call.op.key) == i then
                 && s'.shards[i].version == (s.shards[i].version + 1) % WORD
                 && Sum(owed, s'.threads) + 1 == Sum(owed, s.threads)
               else
                 s'.shards[i].version == s.shards[i].version && Sum(owed, s'.threads) == Sum(owed, s.threads)
  {
    SumUpdate(BumpsOwed<K, V>(layout, i), s.threads, step.t, Exec(layout, s, step).threads[step.t]);
  }

  lemma WritesStep<K, V>(layout: Layout<K>, s: State<K, V>, step: Step<K, V>, i: nat)
    requires Enabled(layout, s, step)
    requires step.CasSucceed? ==> !s.threads[step.t].call.op.Get?
    ensures WritesIn(layout, Exec(layout, s, step).history, i)
         == WritesIn(layout, s.history, i)
            + (if step.CasSucceed? && layout.shardOf(s.threads[step.t].call.op.key) == i then 1 else 0)
  {
    if Grows(step) {
      Extend(layout, s.history, NewEvent(layout, s, step));
    }
  }

  lemma KeepsVersion<K, V>(layout: Layout<K>, s: State<K, V>, step: Step<K, V>, i: nat)
    requires Enabled(layout, s, step) && i < |s.shards| && VersionOk(layout, s, i)
    requires step.CasSucceed? ==> !s.threads[step.t].call.op.Get?
    ensures VersionOk(layout, Exec(layout, s, step), i)
  {
    var owed := BumpsOwed<K, V>(layout, i);
    VersionStep(layout, s, step, i);
    WritesStep(layout, s, step, i);
    SameWordNext(s.shards[i].version + Sum(owed, s.threads), WritesIn(layout, s.history, i));
    SameWordWrap(s.shards[i].version, Sum(owed, Exec(layout, s, step).threads));
  }

  lemma KeepsRetries<K, V>(layout: Layout<K>, s: State<K, V>, step: Step<K, V>)
    requires RetriesOk(s) && Enabled(layout, s, step)
    ensures RetriesOk(Exec(layout, s, step))
  {
    var s' := Exec(layout, s, step);
    SumUpdate(RetryOwed(), s.threads, step.t, s'.threads[step.t]);
    if step.CasFail? {
      SameWordNext(s.casRetries + s.gaveUp + Sum(RetryOwed(), s.threads), s.failedCas);
    } else if step.CountRetry? {
      SameWordWrap(s.casRetries, s'.gaveUp + Sum(RetryOwed(), s'.threads));
    }
  }

  lemma KeepsAsked<K, V>(layout: Layout<K>, s: State<K, V>, step: Step<K, V>)
    requires AskedOk(s) && Enabled(layout, s, step)
    ensures AskedOk(Exec(layout, s, step))
  {
    var s' := Exec(layout, s, step);
    MovedCall(layout, s, step);
    AskedGrows(layout, s, step);
    forall t | 0 <= t < |s'.threads| && HasCall(s'.threads[t])
      ensures AskedFor(s', s'.threads[t].call.id, s'.threads[t].call.op)
    {
      assert step.Invoke? || t != step.t || s'.threads[t].call == s.threads[t].call;
    }
  }

  lemma KeepsCallsCounted<K, V>(layout: Layout<K>, s: State<K, V>, step: Step<K, V>)
    requires CallsCounted(s) && Enabled(layout, s, step)
    ensures CallsCounted(Exec(layout, s, step))
  {
    hide Sum, Exec, Enabled, HasCall;
    var s' := Exec(layout, s, step);
    CallsStep(layout, s, step);
    SumUpdate(InCall(), s.threads, step.t, s'.threads[step.t]);
  }

  lemma CallsStep<K, V>(layout: Layout<K>, s: State<K, V>, step: Step<K, V>)
    requires Enabled(layout, s, step) && s.nextId !in s.asked
    ensures var s' := Exec(layout, s, step);
      && step.t < |s.threads| && s'.threads == s.threads[step.t := s'.threads[step.t]]
      && |s'.log| + InCall()(s'.threads[step.t]) - |s.log| - InCall()(s.threads[step.t]) == |s'.asked| - |s.asked|
      && s.nextId <= s'.nextId && (forall id :: id in s'.asked ==> id in s.asked || id < s'.nextId)
  {
    hide Exec, Enabled, HasCall;
    BooksStep(layout, s, step);
    ThreadStep(layout, s, step);
    var s' := Exec(layout, s, step);
    if step.Invoke? {
      assert s'.asked.Keys == s.asked.Keys + {s.nextId};
    }
  }

  lemma BooksStep<K, V>(layout: Layout<K>, s: State<K, V>, step: Step<K, V>)
    requires Enabled(layout, s, step)
    ensures var s' := Exec(layout, s, step);
      && s'.asked == (if step.Invoke? then s.asked[s.nextId := step.op] else s.asked)
      && s'.nextId == s.nextId + (if step.Invoke? then 1 else 0)
      && |s'.log| == |s.log| + (if step.Return? then 1 else 0)
  {
    if step.Invoke? || step.Return? {
    } else if step.CasFail? {
    } else {
    }
  }

  lemma ThreadStep<K, V>(layout: Layout<K>, s: State<K, V>, step: Step<K, V>)
    requires Enabled(layout, s, step)
    ensures var s' := Exec(layout, s, step);
      && step.t < |s.threads| && s'.threads == s.threads[step.t := s'.threads[step.t]]
      && (if step.Invoke? then !HasCall(s.threads[step.t]) && HasCall(s'.threads[step.t])
          else if step.Return? then HasCall(s.threads[step.t]) && !HasCall(s'.threads[step.t])
          else HasCall(s.threads[step.t]) == HasCall(s'.threads[step.t]))
  {
    if step.Invoke? || step.Return? {
    } else if step.CasFail? {
    } else {
    }
  }

  /** A step invokes with what it was asked for, and every event and every return is that of its mover's call. */
  lemma AskedGrows<K, V>(layout: Layout<K>, s: State<K, V>, step: Step<K, V>)
    requires Enabled(layout, s, step)
    ensures var s', pc := Exec(layout, s, step), s.threads[step.t];
      && s.nextId <= s'.nextId && (forall id, op :: AskedFor(s, id, op) ==> AskedFor(s', id, op))
      && (step.Invoke? ==> s'.threads[step.t].call.op == step.op && AskedFor(s', s.nextId, step.op))
      && |s.history| <= |s'.history| && s'.history[..|s.history|] == s.history
      && (forall i :: |s.history| <= i < |s'.history| ==>
            HasCall(pc) && s'.history[i].id == pc.call.id && s'.history[i].op == pc.call.op)
  {
    if step.Invoke? {
    } else if Grows(step) {
      assert Exec(layout, s, step).history == s.history + [NewEvent(layout, s, step)];
    } else {
      assert Exec(layout, s, step).history == s.history;
    }
  }

  lemma IdsBelowNext<K, V>(layout: Layout<K>, s: State<K, V>)
    requires Inv(layout, s)
    ensures forall t :: 0 <= t < |s.threads| && HasCall(s.threads[t]) ==> s.threads[t].call.id < s.nextId
    ensures forall l :: 0 <= l < |s.log| ==> s.log[l].call.id < s.nextId
  {
  }

  lemma StepKeepsInv<K, V>(layout: Layout<K>, s: State<K, V>, step: Step<K, V>)
    requires Inv(layout, s) && Enabled(layout, s, step)
    ensures Inv(layout, Exec(layout, s, step))
  {
    IdsBelowNext(layout, s);
    MoverIsOk(layout, s, step);
    KeepsVersions(layout, s, step);
    hide Exec, ShardsOk, HistoryOk, IdsOk, LogOk, VersionsOk, RetriesOk, AskedOk, CallsCounted, PcOk, HasCall;
    KeepsShards(layout, s, step);
    KeepsHistory(layout, s, step);
    KeepsIds(layout, s, step);
    KeepsLog(layout, s, step);
    KeepsRetries(layout, s, step);
    KeepsAsked(layout, s, step);
    KeepsCallsCounted(layout, s, step);
    forall t | 0 <= t < |Exec(layout, s, step).threads|
      ensures PcOk(layout, Exec(layout, s, step), Exec(layout, s, step).threads[t])
    {
      MovedCallCount(layout, s, step);
      KeepsPcs(layout, s, step, t);
    }
  }

  lemma MovedCallCount<K, V>(layout: Layout<K>, s: State<K, V>, step: Step<K, V>)
    requires Enabled(layout, s, step)
    ensures |Exec(layout, s, step).threads| == |s.threads|
  {
  }

  lemma MoverIsOk<K, V>(layout: Layout<K>, s: State<K, V>, step: Step<K, V>)
    requires Inv(layout, s) && Enabled(layout, s, step)
    ensures PcOk(layout, s, s.threads[step.t])
  {
  }

  lemma KeepsVersions<K, V>(layout: Layout<K>, s: State<K, V>, step: Step<K, V>)
    requires VersionsOk(layout, s) && Enabled(layout, s, step)
    requires PcOk(layout, s, s.threads[step.t])
    ensures VersionsOk(layout, Exec(layout, s, step))
  {
    var s' := Exec(layout, s, step);
    forall i | 0 <= i < |s'.shards|
      ensures VersionOk(layout, s', i)
    {
      KeepsVersion(layout, s, step, i);
    }
  }

  lemma InitHasInv<K, V>(layout: Layout<K>, s: State<K, V>)
    requires Init(layout, s)
    ensures Inv(layout, s)
  {
    SumZero(RetryOwed<K, V>(), s.threads);
    SumZero(InCall<K, V>(), s.threads);
    forall i | 0 <= i < |s.shards|
      ensures Sum(BumpsOwed(layout, i), s.threads) == 0
    {
      SumZero(BumpsOwed<K, V>(layout, i), s.threads);
    }
  }
}
