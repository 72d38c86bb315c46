/** The map as one thread uses it: the CAS retry loops and the loops over the shards. */
module LockFreeHashMap {
  import opened Prelude
  import opened LockFreeMap
  import opened LockFreeMapTheorems
  import opened Words

  ghost predicate Partitioned<K(!new), V>(layout: Layout<K>, shards: seq<map<K, V>>) {
    forall i, k :: 0 <= i < |shards| && k in shards[i] ==> layout.shardOf(k) == i
  }

  /** A key is found in the merged map exactly as it is found in its own shard. */
  lemma {:induction false} MergeLookup<K(!new), V>(layout: Layout<K>, shards: seq<map<K, V>>, key: K)
    requires Partitioned(layout, shards)
    ensures Lookup(Merge(shards), key)
         == if layout.shardOf(key) < |shards| then Lookup(shards[layout.shardOf(key)], key) else None
  {
    if shards != [] {
      MergeLookup(layout, shards[..|shards| - 1], key);
    }
  }

  lemma ShardsOfMerge<K(!new), V>(layout: Layout<K>, shards: seq<map<K, V>>)
    requires Partitioned(layout, shards)
    ensures forall i :: 0 <= i < |shards| ==> shards[i] == InShard(layout, Merge(shards), i)
  {
    forall i | 0 <= i < |shards|
      ensures shards[i] == InShard(layout, Merge(shards), i)
    {
      forall k
        ensures Lookup(shards[i], k) == Lookup(InShard(layout, Merge(shards), i), k)
      {
        MergeLookup(layout, shards, k);
      }
      SameLookups(shards[i], InShard(layout, Merge(shards), i));
    }
  }

  /** Editing a key's shard edits the merged map. */
  lemma MergeUpdate<K(!new), V>(layout: Layout<K>, shards: seq<map<K, V>>, op: Op<K, V>)
    requires Partitioned(layout, shards)
    requires !op.Get? && layout.shardOf(op.key) < |shards|
    ensures var i := layout.shardOf(op.key);
            var merged := Merge(shards[i := Edit(op, shards[i])]);
            merged == if op.Insert? then Merge(shards)[op.key := op.value] else Merge(shards) - {op.key}
  {
    var i := layout.shardOf(op.key);
    var edited := shards[i := Edit(op, shards[i])];
    forall k
      ensures Lookup(Merge(edited), k) == Lookup(Edit(op, Merge(shards)), k)
    {
      MergeLookup(layout, shards, k);
      MergeLookup(layout, edited, k);
    }
    SameLookups(Merge(edited), Edit(op, Merge(shards)));
  }

  lemma SameLookups<K(!new), V>(a: map<K, V>, b: map<K, V>)
    requires forall k :: Lookup(a, k) == Lookup(b, k)
    ensures a == b
  {
    forall k
      ensures k in a <==> k in b
    {
      assert Lookup(a, k) == Lookup(b, k);
    }
    forall k | k in a
      ensures a[k] == b[k]
    {
      assert Lookup(a, k) == Lookup(b, k);
    }
  }

  class HashMap<K(==, !new), V(==)> {
    const layout: Layout<K>
    var shards: seq<map<K, V>>
    var versions: seq<nat>
    var casRetries: nat

    ghost predicate Valid()
      reads this
    {
      && WellFormed(layout)
      && |shards| == |versions| == layout.count
      && Partitioned(layout, shards)
      && (forall i :: 0 <= i < |versions| ==> versions[i] < WORD)
    }

    ghost function Contents(): map<K, V>
      reads this
    {
      Merge(shards)
    }

    constructor (layout: Layout<K>)
      requires WellFormed(layout)
      ensures Valid() && Contents() == map[] && casRetries == 0
    {
      this.layout := layout;
      shards, versions, casRetries := [], [], 0;
      new;
      for i := 0 to layout.count
        invariant this.layout == layout && casRetries == 0
        invariant |shards| == |versions| == i
        invariant forall j :: 0 <= j < i ==> shards[j] == map[] && versions[j] == 0
      {
        shards, versions := shards + [map[]], versions + [0];
      }
      EmptyMerge(shards);
    }

    static lemma {:induction false} EmptyMerge(maps: seq<map<K, V>>)
      requires forall i :: 0 <= i < |maps| ==> maps[i] == map[]
      ensures Merge(maps) == map[]
    {
      if maps != [] {
        EmptyMerge(maps[..|maps| - 1]);
      }
    }

    method Get(key: K) returns (result: Option<V>)
      requires Valid()
      ensures result == if key in Contents() then Some(Contents()[key]) else None
    {
      MergeLookup(layout, shards, key);
      result := Lookup(shards[layout.shardOf(key)], key);
    }

    /**
    The retry loop of `insert` and `remove`. With no other thread a CAS fails only spuriously;
    `spurious` is how many times in a row it would.
    */
    method Write(op: Op<K, V>, spurious: nat) returns (result: Result<V>)
      requires Valid() && !op.Get?
      modifies this
      ensures Valid()
      ensures spurious < 100 ==>
                && result == Returned(if op.key in old(Contents()) then Some(old(Contents())[op.key]) else None)
                && Contents() == (if op.Insert? then old(Contents())[op.key := op.value]
                                  else old(Contents()) - {op.key})
                && (var i := layout.shardOf(op.key); versions == old(versions)[i := (old(versions)[i] + 1) % WORD])
                && casRetries == old(casRetries) + spurious
      ensures spurious >= 100 ==>
                && result == RetriesExhausted
                && shards == old(shards) && versions == old(versions)
                && casRetries == old(casRetries) + 99
    {
      var i := layout.shardOf(op.key);
      var retries := 0;
      while true
        invariant Valid() && shards == old(shards) && versions == old(versions)
        invariant 0 <= retries <= spurious && retries < MAX_RETRIES
        invariant casRetries == old(casRetries) + retries
        decreases MAX_RETRIES - retries
      {
        var current := shards[i];
        var edited := Edit(op, current);
        if retries == spurious {
          MergeLookup(layout, shards, op.key);
          MergeUpdate(layout, shards, op);
          shards := shards[i := edited];
          versions := versions[i := (versions[i] + 1) % WORD];
          return Returned(Lookup(current, op.key));
        }
        retries := retries + 1;
        if retries >= MAX_RETRIES {
          return RetriesExhausted;
        }
        casRetries := casRetries + 1;
      }
    }

    method Len() returns (count: nat)
      requires Valid()
      ensures count == |Contents()|
    {
      count := 0;
      for i := 0 to |shards|
        invariant count == TotalSize(shards[..i])
      {
        assert shards[..i + 1][..i] == shards[..i];
        count := count + |shards[i]|;
      }
      assert shards[..|shards|] == shards;
      ShardsOfMerge(layout, shards);
      MergeAllShards(layout, shards, Merge(shards));
    }

    /** `snapshot`, and with the values dropped `keys`: every entry once, in no particular order. */
    method Snapshot() returns (entries: seq<(K, V)>)
      requires Valid()
      ensures forall k, v :: (k, v) in entries <==> k in Contents() && Contents()[k] == v
      ensures forall i, j :: 0 <= i < j < |entries| ==> entries[i].0 != entries[j].0
    {
      entries := [];
      for i := 0 to |shards|
        invariant forall e :: e in entries ==> layout.shardOf(e.0) < i
        invariant forall k, v :: (k, v) in entries <==>
                    layout.shardOf(k) < i && Lookup(shards[layout.shardOf(k)], k) == Some(v)
        invariant forall a, b :: 0 <= a < b < |entries| ==> entries[a].0 != entries[b].0
      {
        var left := shards[i].Keys;
        while left != {}
          invariant left <= shards[i].Keys
          invariant forall e :: e in entries ==> layout.shardOf(e.0) <= i && e.0 !in left
          invariant forall k, v :: (k, v) in entries <==>
                      && layout.shardOf(k) <= i && k !in left
                      && Lookup(shards[layout.shardOf(k)], k) == Some(v)
          invariant forall a, b :: 0 <= a < b < |entries| ==> entries[a].0 != entries[b].0
          decreases left
        {
          var key :| key in left;
          left := left - {key};
          entries := entries + [(key, shards[i][key])];
        }
      }
      forall k, v
        ensures (k, v) in entries <==> Lookup(Contents(), k) == Some(v)
      {
        MergeLookup(layout, shards, k);
      }
    }
  }
}
