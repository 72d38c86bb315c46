/** The guarantees of the lock-free map over every run with any number of threads. */
module LockFreeMapTheorems {
  import opened Prelude
  import opened Counting
  import opened Runs
  import opened LockFreeMap
  import opened LockFreeMapProofs
  import opened Words

  // ---------- putting shards together ----------

  ghost function Merge<K, V>(maps: seq<map<K, V>>): map<K, V> {
    if maps == [] then map[] else Merge(maps[..|maps| - 1]) + maps[|maps| - 1]
  }

  ghost function TotalSize<K, V>(maps: seq<map<K, V>>): nat {
    if maps == [] then 0 else TotalSize(maps[..|maps| - 1]) + |maps[|maps| - 1]|
  }

  ghost function FirstShards<K, V>(layout: Layout<K>, m: map<K, V>, n: nat): map<K, V> {
    map k | k in m && layout.shardOf(k) < n :: m[k]
  }

  lemma OneMoreShard<K, V>(layout: Layout<K>, m: map<K, V>, n: nat)
    ensures FirstShards(layout, m, n) + InShard(layout, m, n) == FirstShards(layout, m, n + 1)
    ensures |FirstShards(layout, m, n)| + |InShard(layout, m, n)| == |FirstShards(layout, m, n + 1)|
  {
    DisjointSizes(FirstShards(layout, m, n), InShard(layout, m, n));
  }

  lemma DisjointSizes<K, V>(a: map<K, V>, b: map<K, V>)
    requires a.Keys !! b.Keys
    ensures |a + b| == |a| + |b|
  {
    assert (a + b).Keys == a.Keys + b.Keys;
    assert |a.Keys + b.Keys| == |a.Keys| + |b.Keys|;
  }

  /** Shards of one map merge back into that map, and their sizes add up to its size. */
  lemma {:induction false} MergeShards<K, V>(layout: Layout<K>, maps: seq<map<K, V>>, whole: map<K, V>)
    requires forall i :: 0 <= i < |maps| ==> maps[i] == InShard(layout, whole, i)
    ensures Merge(maps) == FirstShards(layout, whole, |maps|)
    ensures TotalSize(maps) == |FirstShards(layout, whole, |maps|)|
  {
    if maps == [] {
      assert FirstShards(layout, whole, 0) == map[];
    } else {
      var n := |maps| - 1;
      MergeShards(layout, maps[..n], whole);
      OneMoreShard(layout, whole, n);
    }
  }

  /** All the shards of a well-formed layout are the whole map. */
  lemma MergeAllShards<K(!new), V>(layout: Layout<K>, maps: seq<map<K, V>>, whole: map<K, V>)
    requires WellFormed(layout) && |maps| == layout.count
    requires forall i :: 0 <= i < |maps| ==> maps[i] == InShard(layout, whole, i)
    ensures Merge(maps) == whole && TotalSize(maps) == |whole|
  {
    MergeShards(layout, maps, whole);
    assert FirstShards(layout, whole, layout.count) == whole;
  }

  ghost function Contents<K, V>(s: State<K, V>): map<K, V> {
    Merge(seq(|s.shards|, i requires 0 <= i < |s.shards| => s.shards[i].content))
  }

  // ---------- every run ----------

  ghost predicate MapRun<K(!new), V(!new)>(layout: Layout<K>, run: seq<State<K, V>>) {
    IsRun((s: State<K, V>) => Init(layout, s), (s: State<K, V>, s': State<K, V>) => Next(layout, s, s'), run)
  }

  lemma InvOfRun<K(!new), V(!new)>(layout: Layout<K>, run: seq<State<K, V>>)
    requires MapRun(layout, run)
    ensures forall n :: 0 <= n < |run| ==> Inv(layout, run[n])
  {
    var inv := (s: State<K, V>) => Inv(layout, s);
    forall s: State<K, V> | Init(layout, s)
      ensures inv(s)
    {
      InitHasInv(layout, s);
    }
    forall s: State<K, V>, s': State<K, V> | inv(s) && Next(layout, s, s')
      ensures inv(s')
    {
      var step :| Enabled(layout, s, step) && s' == Exec(layout, s, step);
      StepKeepsInv(layout, s, step);
    }
    InvariantOfRun((s: State<K, V>) => Init(layout, s),
                   (s: State<K, V>, s': State<K, V>) => Next(layout, s, s'), inv, run);
    forall n | 0 <= n < |run|
      ensures Inv(layout, run[n])
    {
      assert inv(run[n]);
    }
  }

  /**
  Linearizability. In every state the shards together are the sequential map after the successful CASes,
  taken in order; that order is a legal sequential history in which no call occurs twice; every call that
  returned a value occurs in it once, between its invocation and its return, with the value it returned,
  so calls that do not overlap keep their order; and a call that gave up occurs in it nowhere. Each call is
  the one that was asked for.
  */
  lemma Linearizable<K(!new), V(!new)>(layout: Layout<K>, run: seq<State<K, V>>, n: nat)
    requires WellFormed(layout) && MapRun(layout, run) && n < |run|
    ensures Contents(run[n]) == Replay(run[n].history)
    ensures Legal(run[n].history)
    ensures forall i, j :: 0 <= i < j < |run[n].history| ==> run[n].history[i].id != run[n].history[j].id
    ensures forall l :: 0 <= l < |run[n].log| ==>
              var done := run[n].log[l];
              done.call.id in run[n].asked && done.call.op == run[n].asked[done.call.id]
    ensures forall l :: 0 <= l < |run[n].log| ==>
              var done := run[n].log[l];
              match done.result
              case Returned(out) =>
                && done.call.start <= done.lin < done.finish <= |run[n].history|
                && run[n].history[done.lin] == Event(done.call.id, done.call.op, out)
              case RetriesExhausted => FreshId(run[n].history, done.call.id)
    ensures forall a, b | 0 <= a < |run[n].log| && 0 <= b < |run[n].log| ::
              run[n].log[a].result.Returned? && run[n].log[b].result.Returned? ==>
                run[n].log[a].finish <= run[n].log[b].call.start ==> run[n].log[a].lin < run[n].log[b].lin
  {
    InvOfRun(layout, run);
    var s := run[n];
    var contents := seq(|s.shards|, i requires 0 <= i < |s.shards| => s.shards[i].content);
    MergeAllShards(layout, contents, Replay(s.history));
  }

  /** After a history the map has a key exactly if its last insert came after its last remove, with that value. */
  lemma {:induction false} ReplayKeepsLastInsert<K, V>(history: seq<Event<K, V>>, key: K)
    ensures key in Replay(history) ==>
              exists i :: LastInsert(history, i, key) && history[i].op.value == Replay(history)[key]
    ensures key !in Replay(history) ==> forall i :: !LastInsert(history, i, key)
  {
    if history != [] {
      var shorter, last := history[..|history| - 1], history[|history| - 1];
      ReplayKeepsLastInsert(shorter, key);
      forall i | 0 <= i < |shorter|
        ensures LastInsert(history, i, key) <==> LastInsert(shorter, i, key) && (last.op.Get? || last.op.key != key)
      {
      }
      if last.op.Insert? && last.op.key == key {
        assert LastInsert(history, |shorter|, key);
      } else if last.op.Remove? && last.op.key == key {
      } else if i :| LastInsert(shorter, i, key) && history[i].op.value == Replay(shorter)[key] {
        assert LastInsert(history, i, key);
      }
    }
  }

  /** The event inserts the key, and no later one writes it. */
  ghost predicate LastInsert<K, V>(history: seq<Event<K, V>>, i: int, key: K) {
    && 0 <= i < |history| && history[i].op.Insert? && history[i].op.key == key
    && forall j :: i < j < |history| ==> history[j].op.Get? || history[j].op.key != key
  }

  /**
  What the sequential map is, without replaying it: every returned call got the value of the last insert of its key
  before its own event, or nothing if each of them was followed by a remove; and the same holds for what the shards
  hold in the end.
  */
  lemma CallsReturnLastWritten<K(!new), V(!new)>(layout: Layout<K>, run: seq<State<K, V>>, n: nat, l: nat)
    requires WellFormed(layout) && MapRun(layout, run) && n < |run|
    requires l < |run[n].log| && run[n].log[l].result.Returned?
    ensures var history, done := run[n].history, run[n].log[l];
      && done.lin < |history|
      && match done.result.value
         case Some(value) =>
           exists i :: 0 <= i < done.lin && history[i].op == Insert(done.call.op.key, value)
             && forall j :: i < j < done.lin ==> history[j].op.Get? || history[j].op.key != done.call.op.key
         case None =>
           forall i :: 0 <= i < done.lin && history[i].op.Insert? && history[i].op.key == done.call.op.key ==>
             exists j :: i < j < done.lin && history[j].op == Remove(done.call.op.key)
  {
    Linearizable(layout, run, n);
    var history, done := run[n].history, run[n].log[l];
    LastWriteBefore(history, done.lin, done.call.op.key);
  }

  /** What the shards hold in any state. */
  lemma ContentsAreLastWritten<K(!new), V(!new)>(layout: Layout<K>, run: seq<State<K, V>>, n: nat, key: K)
    requires WellFormed(layout) && MapRun(layout, run) && n < |run|
    ensures var history := run[n].history;
      if key in Contents(run[n]) then
        exists i :: 0 <= i < |history| && history[i].op == Insert(key, Contents(run[n])[key])
          && forall j :: i < j < |history| ==> history[j].op.Get? || history[j].op.key != key
      else
        forall i :: 0 <= i < |history| && history[i].op.Insert? && history[i].op.key == key ==>
          exists j :: i < j < |history| && history[j].op == Remove(key)
  {
    Linearizable(layout, run, n);
    LastWriteBefore(run[n].history, |run[n].history|, key);
    assert run[n].history[..|run[n].history|] == run[n].history;
  }

  lemma LastWriteBefore<K, V>(history: seq<Event<K, V>>, n: nat, key: K)
    requires n <= |history|
    ensures var m := Replay(history[..n]);
      if key in m then
        exists i :: 0 <= i < n && history[i].op == Insert(key, m[key])
          && forall j :: i < j < n ==> history[j].op.Get? || history[j].op.key != key
      else
        forall i :: 0 <= i < n && history[i].op.Insert? && history[i].op.key == key ==>
          exists j :: i < j < n && history[j].op == Remove(key)
  {
    hide Replay;
    var past := history[..n];
    ReplayKeepsLastInsert(past, key);
    if key in Replay(past) {
      var i :| LastInsert(past, i, key) && past[i].op.value == Replay(past)[key];
      assert history[i].op == Insert(key, Replay(past)[key]);
    } else {
      forall i | 0 <= i < n && history[i].op.Insert? && history[i].op.key == key
        ensures exists j :: i < j < n && history[j].op == Remove(key)
      {
        RemovedLater(past, i, key);
      }
    }
  }

  /** If no insert is the last write of its key, each has a remove behind it. */
  lemma {:induction false} RemovedLater<K, V>(history: seq<Event<K, V>>, i: nat, key: K)
    requires i < |history| && history[i].op.Insert? && history[i].op.key == key
    requires forall k :: !LastInsert(history, k, key)
    ensures exists j :: i < j < |history| && history[j].op == Remove(key)
    decreases |history| - i
  {
    assert !LastInsert(history, i, key);
    var j :| i < j < |history| && !history[j].op.Get? && history[j].op.key == key;
    if history[j].op.Insert? {
      RemovedLater(history, j, key);
    }
  }

  /**
  The CAS of a pending write can succeed exactly when no other write to its shard has succeeded since it
  loaded the pointer: a lost race means that another operation made progress.
  */
  lemma LostRaceMeansProgress<K(!new), V(!new)>(layout: Layout<K>, run: seq<State<K, V>>, n: nat, t: nat)
    requires MapRun(layout, run) && n < |run|
    requires t < |run[n].threads| && run[n].threads[t].Cloned?
    ensures var s, pc := run[n], run[n].threads[t];
            && pc.seen <= |s.history|
            && (Enabled(layout, s, CasSucceed(t)) <==>
                  WritesIn(layout, s.history, layout.shardOf(pc.call.op.key))
                  == WritesIn(layout, s.history[..pc.seen], layout.shardOf(pc.call.op.key)))
  {
    hide Init, Next, HistoryOk, IdsOk, AskedOk, LogOk, VersionsOk, RetriesOk, CallsCounted, WritesIn;
    InvOfRun(layout, run);
    assert PcOk(layout, run[n], run[n].threads[t]);
  }

  /**
  Retry accounting. A finished call lost fewer than 100 CASes if it returned and exactly 100 if it gave up. When
  every thread is idle, every call that was asked for has returned, each version counts its shard's successful
  CASes, and failed CASes are the retries counted plus the operations that gave up, all modulo the word size.
  */
  lemma RetriesAccounted<K(!new), V(!new)>(layout: Layout<K>, run: seq<State<K, V>>, n: nat)
    requires MapRun(layout, run) && n < |run|
    ensures forall l :: 0 <= l < |run[n].log| ==>
              if run[n].log[l].result.Returned? then Fails(run[n], run[n].log[l].call.id) < 100
              else Fails(run[n], run[n].log[l].call.id) == 100
    ensures (forall t :: 0 <= t < |run[n].threads| ==> run[n].threads[t].Idle?) ==>
              && (forall i :: 0 <= i < |run[n].shards| ==>
                    run[n].shards[i].version % WORD == WritesIn(layout, run[n].history, i) % WORD)
              && (run[n].casRetries + run[n].gaveUp) % WORD == run[n].failedCas % WORD
              && |run[n].log| == |run[n].asked|
  {
    hide Init, Next, ShardsOk, HistoryOk, IdsOk, AskedOk, PcOk, VersionsOk, RetriesOk, CallsCounted, Fails, Accounted;
    InvOfRun(layout, run);
    var s := run[n];
    if forall t :: 0 <= t < |s.threads| ==> s.threads[t].Idle? {
      CountersOfRest(layout, s);
    }
  }

  lemma CountersOfRest<K, V>(layout: Layout<K>, s: State<K, V>)
    requires VersionsOk(layout, s) && RetriesOk(s) && CallsCounted(s)
    requires forall t :: 0 <= t < |s.threads| ==> s.threads[t].Idle?
    ensures forall i :: 0 <= i < |s.shards| ==> SameWord(s.shards[i].version, WritesIn(layout, s.history, i))
    ensures SameWord(s.casRetries + s.gaveUp, s.failedCas) && |s.log| == |s.asked|
  {
    SumZero(RetryOwed<K, V>(), s.threads);
    SumZero(InCall<K, V>(), s.threads);
    forall i | 0 <= i < |s.shards|
      ensures SameWord(s.shards[i].version, WritesIn(layout, s.history, i))
    {
      assert VersionOk(layout, s, i);
      SumZero(BumpsOwed<K, V>(layout, i), s.threads);
    }
  }

  // ---------- traversals: len, keys, snapshot, for_each ----------

  ghost predicate Untouched<K, V>(history: seq<Event<K, V>>, start: nat, key: K) {
    forall i :: start <= i < |history| ==> history[i].op.Get? || history[i].op.key != key
  }

  lemma {:induction false} UntouchedKeepsValue<K, V>(history: seq<Event<K, V>>, start: nat, n: nat, key: K)
    requires start <= n <= |history| && Untouched(history, start, key)
    ensures Lookup(Replay(history[..n]), key) == Lookup(Replay(history[..start]), key)
  {
    if start < n {
      UntouchedKeepsValue(history, start, n - 1, key);
      assert history[..n][..n - 1] == history[..n - 1];
      assert history[..n][n - 1] == history[n - 1];
    }
  }

  /**
  A traversal that has visited every shard, in every run: each pair it reports was in the map when its
  shard was loaded; it reports no key twice; and a key that no write touched since it began is reported
  exactly if the map had it, with its value.
  */
  lemma TraversalIsWeaklyConsistent<K(!new), V(!new)>(layout: Layout<K>, run: seq<State<K, V>>, n: nat, t: nat)
    requires WellFormed(layout) && MapRun(layout, run) && n < |run|
    requires t < |run[n].threads| && Enabled(layout, run[n], WalkEnd(t))
    ensures var s, walk := run[n], run[n].threads[t];
            && walk.start <= |s.history| && |walk.at| == |walk.got|
            && (forall i :: 0 <= i < |walk.at| ==> walk.start <= walk.at[i] <= |s.history|)
            && (forall i, k :: 0 <= i < |walk.got| && k in walk.got[i] ==>
                  layout.shardOf(k) == i && Lookup(Replay(s.history[..walk.at[i]]), k) == Some(walk.got[i][k]))
            && (forall i, j, k | 0 <= i < |walk.got| && 0 <= j < |walk.got| ::
                  k in walk.got[i] && k in walk.got[j] ==> i == j)
            && (forall k :: Untouched(s.history, walk.start, k) ==>
                  Lookup(walk.got[layout.shardOf(k)], k) == Lookup(Replay(s.history[..walk.start]), k))
  {
    InvOfRun(layout, run);
    var s, walk := run[n], run[n].threads[t];
    assert PcOk(layout, s, walk);
    forall k | Untouched(s.history, walk.start, k)
      ensures Lookup(walk.got[layout.shardOf(k)], k) == Lookup(Replay(s.history[..walk.start]), k)
    {
      UntouchedKeepsValue(s.history, walk.start, walk.at[layout.shardOf(k)], k);
    }
  }

  /** With no write since it began, a traversal reports exactly the map, and counts its entries. */
  lemma QuietTraversalIsExact<K(!new), V(!new)>(layout: Layout<K>, run: seq<State<K, V>>, n: nat, t: nat)
    requires WellFormed(layout) && MapRun(layout, run) && n < |run|
    requires t < |run[n].threads| && Enabled(layout, run[n], WalkEnd(t))
    requires forall i :: run[n].threads[t].start <= i < |run[n].history| ==> run[n].history[i].op.Get?
    ensures Merge(run[n].threads[t].got) == Contents(run[n])
    ensures TotalSize(run[n].threads[t].got) == |Contents(run[n])|
  {
    InvOfRun(layout, run);
    var s, walk := run[n], run[n].threads[t];
    var whole := Replay(s.history);
    assert PcOk(layout, s, walk);
    QuietReplay(s.history, walk.start, |s.history|);
    assert s.history[..|s.history|] == s.history;
    forall i | 0 <= i < |walk.got|
      ensures walk.got[i] == InShard(layout, whole, i)
    {
      QuietReplay(s.history, walk.start, walk.at[i]);
    }
    MergeAllShards(layout, walk.got, whole);
    Linearizable(layout, run, n);
  }

  lemma {:induction false} QuietReplay<K, V>(history: seq<Event<K, V>>, start: nat, n: nat)
    requires start <= n <= |history|
    requires forall i :: start <= i < |history| ==> history[i].op.Get?
    ensures Replay(history[..n]) == Replay(history[..start])
  {
    if start < n {
      QuietReplay(history, start, n - 1);
      assert history[..n][..n - 1] == history[..n - 1];
      assert history[..n][n - 1] == history[n - 1];
    }
  }

  // ---------- shard selection ----------

  /** Bitwise conjunction of two words. */
  function BitAnd(a: nat, b: nat): nat {
    if a == 0 || b == 0 then 0 else (a % 2) * (b % 2) + 2 * BitAnd(a / 2, b / 2)
  }

  function Pow2(k: nat): (p: nat)
    ensures p > 0
  {
    if k == 0 then 1 else 2 * Pow2(k - 1)
  }

  /** `shard_index`: the hash masked by the shard count less one. */
  function ShardIndex(hash: nat, count: nat): nat
    requires count > 0
  {
    BitAnd(hash, count - 1)
  }

  /**
  For the power-of-two counts that `with_capacity` rounds up to, masking takes the remainder: the index is
  in range, and every shard is the index of some hash.
  */
  lemma {:induction false} MaskIsRemainder(hash: nat, k: nat)
    ensures ShardIndex(hash, Pow2(k)) == hash % Pow2(k)
    ensures hash < Pow2(k) ==> ShardIndex(hash, Pow2(k)) == hash
  {
    hide BitAnd;
    if k == 0 || hash == 0 {
      NothingMasked(hash);
      NothingMasked(Pow2(k) - 1);
      assert hash == 0 ==> hash % Pow2(k) == 0;
    } else {
      var half := Pow2(k - 1);
      MaskIsRemainder(hash / 2, k - 1);
      MaskedHalf(hash, half);
      RemainderOfHalf(hash, half);
      assert hash < 2 * half ==> hash / 2 < half;
    }
  }

  lemma NothingMasked(n: nat)
    ensures BitAnd(n, 0) == 0 && BitAnd(0, n) == 0
  {
  }

  /** Masking with an odd mask keeps the lowest bit. */
  lemma MaskedHalf(hash: nat, half: nat)
    requires hash > 0 && half > 0
    ensures BitAnd(hash, 2 * half - 1) == hash % 2 + 2 * BitAnd(hash / 2, half - 1)
  {
    assert (2 * half - 1) / 2 == half - 1 && (2 * half - 1) % 2 == 1;
  }

  lemma RemainderOfHalf(hash: nat, half: nat)
    requires half > 0
    ensures hash % (2 * half) == hash % 2 + 2 * ((hash / 2) % half)
  {
    var q, r := (hash / 2) / half, (hash / 2) % half;
    assert hash == 2 * (half * q + r) + hash % 2;
    assert hash == (2 * half) * q + (2 * r + hash % 2);
    UniqueRemainder(hash, 2 * half, q, 2 * r + hash % 2);
  }

  lemma UniqueRemainder(n: nat, d: nat, q: nat, r: nat)
    requires d > 0 && n == d * q + r && r < d
    ensures n % d == r
  {
    var k := n / d;
    assert d * (k - q) == r - n % d;
    MultipleIsFar(d, k - q);
    assert k == q;
  }

  lemma MultipleIsFar(d: nat, m: int)
    ensures m >= 1 ==> d * m >= d
    ensures m <= -1 ==> d * m + d <= 0
  {
  }

  /** The layout that a hash function and a power-of-two count induce assigns every key to a shard. */
  lemma MaskedLayoutIsWellFormed<K(!new)>(hash: K -> nat, k: nat)
    ensures WellFormed(Layout(Pow2(k), (key: K) => ShardIndex(hash(key), Pow2(k))))
  {
    forall key: K
      ensures ShardIndex(hash(key), Pow2(k)) < Pow2(k)
    {
      MaskIsRemainder(hash(key), k);
    }
  }
}
