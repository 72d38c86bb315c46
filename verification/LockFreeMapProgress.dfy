/**
That the calls of the lock-free map come to their ends: from any state of any run, a call or a traversal that is left
alone completes within a few steps, and a writer that loses a hundred races gives up.
*/
module LockFreeMapProgress {
  import opened LockFreeMap
  import opened LockFreeMapTheorems
  import opened Prelude
  import opened Runs

  ghost function Last<K, V>(run: seq<State<K, V>>): State<K, V>
    requires run != []
  {
    run[|run| - 1]
  }

  /** A run whose thread `t` is between calls. */
  ghost predicate Resting<K(!new), V(!new)>(layout: Layout<K>, run: seq<State<K, V>>, t: nat) {
    && WellFormed(layout) && run != [] && MapRun(layout, run)
    && t < |Last(run).threads| && Last(run).threads[t].Idle?
  }

  lemma GoOn<K(!new), V(!new)>(layout: Layout<K>, run: seq<State<K, V>>, step: Step<K, V>)
    returns (longer: seq<State<K, V>>)
    requires run != [] && MapRun(layout, run) && Enabled(layout, Last(run), step)
    ensures longer != [] && MapRun(layout, longer) && Last(longer) == Exec(layout, Last(run), step)
    ensures |longer| == |run| + 1 && longer[..|run|] == run
  {
    longer := run + [Exec(layout, Last(run), step)];
    forall i | 0 <= i < |longer| - 1
      ensures Next(layout, longer[i], longer[i + 1])
    {
      assert i < |run| - 1 ==> Next(layout, run[i], run[i + 1]);
    }
  }

  /** What a key's shard holds is what the map holds. */
  lemma ShardHasKey<K(!new), V(!new)>(layout: Layout<K>, run: seq<State<K, V>>, key: K)
    requires WellFormed(layout) && run != [] && MapRun(layout, run)
    ensures var s := Last(run);
      && |s.shards| == layout.count && layout.shardOf(key) < |s.shards|
      && Lookup(s.shards[layout.shardOf(key)].content, key)
         == if key in Contents(s) then Some(Contents(s)[key]) else None
  {
    InvOfRun(layout, run);
    Linearizable(layout, run, |run| - 1);
  }

  lemma ContentsAfter<K(!new), V(!new)>(
    layout: Layout<K>, run: seq<State<K, V>>, longer: seq<State<K, V>>, e: Event<K, V>)
    requires WellFormed(layout) && run != [] && longer != [] && MapRun(layout, run) && MapRun(layout, longer)
    requires Last(longer).history == Last(run).history + [e]
    ensures var before, after := Contents(Last(run)), Contents(Last(longer));
      match e.op
      case Get(_) => after == before
      case Insert(key, value) => after == before[key := value]
      case Remove(key) => after == before - {key}
  {
    Linearizable(layout, run, |run| - 1);
    Linearizable(layout, longer, |longer| - 1);
    assert Last(longer).history[..|Last(run).history|] == Last(run).history;
  }

  /**
  A call that runs alone completes within five steps, with the value that the map holds for its key, and with the
  effect on the map that it is asked for.
  */
  lemma CallCompletesAlone<K(!new), V(!new)>(layout: Layout<K>, run: seq<State<K, V>>, t: nat, op: Op<K, V>)
    returns (longer: seq<State<K, V>>)
    requires Resting(layout, run, t)
    ensures Resting(layout, longer, t) && |run| <= |longer| <= |run| + 5 && longer[..|run|] == run
    ensures var s, s' := Last(run), Last(longer);
      && |s'.log| == |s.log| + 1 && s'.log[..|s.log|] == s.log
      && s'.log[|s.log|].call.op == op
      && s'.log[|s.log|].result == Returned(if op.key in Contents(s) then Some(Contents(s)[op.key]) else None)
      && match op
         case Get(_) => Contents(s') == Contents(s)
         case Insert(key, value) => Contents(s') == Contents(s)[key := value]
         case Remove(key) => Contents(s') == Contents(s) - {key}
  {
    var s := Last(run);
    ShardHasKey(layout, run, op.key);
    var call := Call(s.nextId, op, |s.history|);
    var value := Lookup(s.shards[layout.shardOf(op.key)].content, op.key);
    if op.Get? {
      longer := GetAlone(layout, run, t, op);
    } else {
      longer := WriteAlone(layout, run, t, op);
    }
    ContentsAfter(layout, run, longer, Event(call.id, op, value));
  }

  lemma GetAlone<K(!new), V(!new)>(layout: Layout<K>, run: seq<State<K, V>>, t: nat, op: Op<K, V>)
    returns (longer: seq<State<K, V>>)
    requires Resting(layout, run, t) && op.Get?
    requires |Last(run).shards| == layout.count
    ensures Resting(layout, longer, t) && |longer| == |run| + 3 && longer[..|run|] == run
    ensures var s, s' := Last(run), Last(longer);
      var call := Call(s.nextId, op, |s.history|);
      var value := Lookup(s.shards[layout.shardOf(op.key)].content, op.key);
      && s'.history == s.history + [Event(call.id, op, value)]
      && s'.log == s.log + [Completed(call, Returned(value), |s.history|, |s.history| + 1)]
  {
    hide MapRun;
    longer := GoOn(layout, run, Invoke(t, op));
    longer := GoOn(layout, longer, LoadForGet(t));
    longer := GoOn(layout, longer, Return(t));
  }

  lemma WriteAlone<K(!new), V(!new)>(layout: Layout<K>, run: seq<State<K, V>>, t: nat, op: Op<K, V>)
    returns (longer: seq<State<K, V>>)
    requires Resting(layout, run, t) && !op.Get?
    requires |Last(run).shards| == layout.count
    ensures Resting(layout, longer, t) && |longer| == |run| + 5 && longer[..|run|] == run
    ensures var s, s' := Last(run), Last(longer);
      var call := Call(s.nextId, op, |s.history|);
      var value := Lookup(s.shards[layout.shardOf(op.key)].content, op.key);
      && s'.history == s.history + [Event(call.id, op, value)]
      && s'.log == s.log + [Completed(call, Returned(value), |s.history|, |s.history| + 1)]
  {
    hide MapRun;
    longer := GoOn(layout, run, Invoke(t, op));
    longer := GoOn(layout, longer, LoadForWrite(t));
    longer := GoOn(layout, longer, CasSucceed(t));
    longer := GoOn(layout, longer, BumpVersion(t));
    longer := GoOn(layout, longer, Return(t));
  }

  /** A writer that loses every race gives up after a hundred of them, and changes nothing. */
  lemma WriterMayGiveUp<K(!new), V(!new)>(layout: Layout<K>, run: seq<State<K, V>>, t: nat, op: Op<K, V>)
    returns (longer: seq<State<K, V>>)
    requires Resting(layout, run, t) && !op.Get?
    ensures Resting(layout, longer, t)
    ensures var s, s' := Last(run), Last(longer);
      && s'.shards == s.shards && s'.history == s.history
      && |s'.log| == |s.log| + 1 && s'.log[|s.log|].call.op == op && s'.log[|s.log|].result == RetriesExhausted
      && s'.failedCas == s.failedCas + 100 && s'.gaveUp == s.gaveUp + 1
  {
    hide MapRun;
    var s := Last(run);
    ShardHasKey(layout, run, op.key);
    var call := Call(s.nextId, op, |s.history|);
    longer := GoOn(layout, run, Invoke(t, op));
    for retries := 0 to 99
      invariant longer != [] && MapRun(layout, longer)
      invariant var s' := Last(longer);
        && s'.shards == s.shards && s'.history == s.history && s'.log == s.log && s'.gaveUp == s.gaveUp
        && |s'.threads| == |s.threads| && s'.threads[t] == Invoked(call, retries)
        && s'.failedCas == s.failedCas + retries
    {
      longer := LoseRace(layout, longer, t);
      longer := GoOn(layout, longer, CountRetry(t));
    }
    longer := LoseRace(layout, longer, t);
    longer := GoOn(layout, longer, Return(t));
  }

  lemma LoseRace<K(!new), V(!new)>(layout: Layout<K>, run: seq<State<K, V>>, t: nat) returns (longer: seq<State<K, V>>)
    requires run != [] && MapRun(layout, run) && t < |Last(run).threads|
    requires var pc := Last(run).threads[t]; pc.Invoked? && Enabled(layout, Last(run), LoadForWrite(t))
    ensures longer != [] && MapRun(layout, longer)
    ensures var s, s', pc := Last(run), Last(longer), Last(run).threads[t];
      && s'.shards == s.shards && s'.history == s.history && s'.log == s.log
      && s'.failedCas == s.failedCas + 1 && |s'.threads| == |s.threads|
      && s'.threads[t] == (if pc.retries + 1 >= 100 then Returning(pc.call, RetriesExhausted, 0)
                           else CasFailed(pc.call, pc.retries + 1))
      && s'.gaveUp == s.gaveUp + (if pc.retries + 1 >= 100 then 1 else 0)
  {
    hide MapRun;
    longer := GoOn(layout, run, LoadForWrite(t));
    longer := GoOn(layout, longer, CasFail(t));
  }

  ghost function FirstContents<K, V>(s: State<K, V>, count: nat): seq<map<K, V>>
    requires count <= |s.shards|
  {
    seq(count, k requires 0 <= k < count => s.shards[k].content)
  }

  lemma AllShards<K(!new), V(!new)>(layout: Layout<K>, run: seq<State<K, V>>)
    requires run != [] && MapRun(layout, run)
    ensures var s := Last(run);
      |s.shards| == layout.count && Contents(s) == Merge(FirstContents(s, |s.shards|))
  {
    InvOfRun(layout, run);
    var s := Last(run);
    assert FirstContents(s, |s.shards|) == seq(|s.shards|, i requires 0 <= i < |s.shards| => s.shards[i].content);
  }

  lemma WalkOn<K, V>(layout: Layout<K>, s: State<K, V>, t: nat)
    requires |s.shards| == layout.count && t < |s.threads|
    requires var pc := s.threads[t]; pc.Walking? && |pc.got| < |s.shards| && pc.got == FirstContents(s, |pc.got|)
    ensures Enabled(layout, s, WalkLoad(t))
    ensures var s' := Exec(layout, s, WalkLoad(t));
      && s'.shards == s.shards && |s'.threads| == |s.threads|
      && s'.threads[t].Walking? && s'.threads[t].got == FirstContents(s, |s.threads[t].got| + 1)
  {
    var i := |s.threads[t].got|;
    assert FirstContents(s, i + 1) == FirstContents(s, i) + [s.shards[i].content];
  }

  /** A traversal that runs alone visits every shard and has collected the map. */
  lemma TraversalCompletesAlone<K(!new), V(!new)>(layout: Layout<K>, run: seq<State<K, V>>, t: nat)
    returns (longer: seq<State<K, V>>, got: seq<map<K, V>>)
    requires Resting(layout, run, t)
    ensures Resting(layout, longer, t) && |longer| == |run| + layout.count + 2
    ensures Last(longer).shards == Last(run).shards && Merge(got) == Contents(Last(run))
    ensures var before := longer[|longer| - 2];
      t < |before.threads| && Enabled(layout, before, WalkEnd(t)) && before.threads[t].got == got
  {
    hide MapRun;
    var s := Last(run);
    AllShards(layout, run);
    longer := GoOn(layout, run, WalkStart(t));
    for i := 0 to layout.count
      invariant longer != [] && MapRun(layout, longer) && |longer| == |run| + 1 + i
      invariant var s' := Last(longer);
        && s'.shards == s.shards && |s'.threads| == |s.threads|
        && s'.threads[t].Walking? && s'.threads[t].got == FirstContents(s, i)
    {
      WalkOn(layout, Last(longer), t);
      longer := GoOn(layout, longer, WalkLoad(t));
    }
    got := Last(longer).threads[t].got;
    longer := GoOn(layout, longer, WalkEnd(t));
  }
}
