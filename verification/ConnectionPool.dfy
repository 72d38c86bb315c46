/** The connection pool as one user drives it: its accounting, its bounds and its exact sizes. */
module ConnectionPool {
  import opened Prelude
  import opened PoolHysteresis
  import opened Words

  datatype ConnectionState = Available | InUse

  datatype PoolConnection = PoolConnection(state: ConnectionState, useCount: nat)

  datatype PoolError = Exhausted | ConnectionNotFound | ExpansionTooLarge(size: nat)

  datatype Result<+T> = Ok(value: T) | Err(error: PoolError)

  predicate Distinct(queue: seq<nat>) {
    forall i, j :: 0 <= i < j < |queue| ==> queue[i] != queue[j]
  }

  /** Different members of a set are no more than the set has. */
  lemma {:induction false} DistinctFit(queue: seq<nat>, ids: set<nat>)
    requires Distinct(queue) && forall id :: id in queue ==> id in ids
    ensures |queue| <= |ids|
  {
    if queue != [] {
      var id := queue[0];
      forall other | other in queue[1..]
        ensures other in ids - {id}
      {
        assert other in queue;
      }
      DistinctFit(queue[1..], ids - {id});
    }
  }

  function Without(conns: map<nat, PoolConnection>, removed: seq<nat>): map<nat, PoolConnection> {
    map id | id in conns && id !in removed :: conns[id]
  }

  class Pool {
    var conns: map<nat, PoolConnection>
    var queue: seq<nat>
    var nextId: nat
    var total: nat
    var available: nat
    var active: nat
    const initialSize: nat
    const maxSize: nat
    var strategy: Strategy

    /** Counters, map and queue agree. */
    ghost predicate Valid()
      reads this
    {
      && Distinct(queue)
      && (forall id :: id in queue ==> id in conns)
      && (forall id :: id in conns ==> id < nextId)
      && total == |conns| && available == |queue| && total == available + active
      && (forall id :: id in conns ==> conns[id].state == if id in queue then Available else InUse)
      && initialSize <= maxSize && total <= maxSize < WORD
      && Sane(strategy)
    }

    /** The pool has been initialised and stays between its initial and its maximum size. */
    ghost predicate Ready()
      reads this
    {
      Valid() && initialSize <= total
    }

    constructor (initialSize: nat, maxSize: nat)
      requires initialSize <= maxSize < WORD
      ensures Valid() && total == 0 && strategy == DEFAULT_STRATEGY
      ensures this.initialSize == initialSize && this.maxSize == maxSize
    {
      conns, queue, nextId, total, available, active := map[], [], 0, 0, 0, 0;
      this.initialSize, this.maxSize := initialSize, maxSize;
      strategy := DEFAULT_STRATEGY;
    }

    /** One round of the creation loops. */
    method CreateOne()
      requires Valid() && total < maxSize
      modifies this
      ensures Valid() && strategy == old(strategy)
      ensures total == old(total) + 1 && available == old(available) + 1 && nextId == old(nextId) + 1
      ensures queue == old(queue) + [old(nextId)]
      ensures conns == old(conns)[old(nextId) := PoolConnection(Available, 0)] && old(nextId) !in old(conns)
    {
      var id := nextId;
      nextId := nextId + 1;
      ghost var before := conns.Keys;
      conns := conns[id := PoolConnection(Available, 0)];
      assert conns.Keys == before + {id};
      queue := queue + [id];
      total := total + 1;
      available := available + 1;
    }

    /** Creates `count` connections and makes them available. */
    method CreateConnections(count: nat)
      requires Valid() && total + count <= maxSize
      modifies this
      ensures Valid()
      ensures total == old(total) + count && available == old(available) + count && strategy == old(strategy)
      ensures queue == old(queue) + seq(count, i => old(nextId) + i)
      ensures forall id :: id in old(conns) ==> id in conns && conns[id] == old(conns)[id]
    {
      for i := 0 to count
        invariant Valid() && strategy == old(strategy)
        invariant total == old(total) + i && available == old(available) + i && nextId == old(nextId) + i
        invariant queue == old(queue) + seq(i, k => old(nextId) + k)
        invariant forall id :: id in old(conns) ==> id in conns && conns[id] == old(conns)[id]
      {
        hide *;
        CreateOne();
        assert seq(i + 1, k => old(nextId) + k) == seq(i, k => old(nextId) + k) + [old(nextId) + i];
      }
    }

    /**
    Creates the initial connections, unless a map write gives up, for the connection number `gaveUp` if any; the
    caller then gets an error and no pool.
    */
    method InitializePool(gaveUp: Option<nat>) returns (ok: bool)
      requires Valid() && total == 0
      modifies this
      ensures ok <==> gaveUp.None? || gaveUp.value >= initialSize
      ensures ok ==> Ready() && total == available == initialSize && strategy == old(strategy)
      ensures !ok ==> Valid() && total == available == gaveUp.value
    {
      for i := 0 to initialSize
        invariant Valid() && strategy == old(strategy) && total == available == i
        invariant gaveUp.None? || gaveUp.value >= i
      {
        if gaveUp == Some(i) {
          nextId := nextId + 1;
          return false;
        }
        CreateOne();
      }
      assert active == 0;
      return true;
    }

    method GetConnection() returns (result: Result<nat>)
      requires Ready()
      modifies this
      ensures Ready() && total == old(total) && strategy == old(strategy)
      ensures old(queue) == [] ==> result == Err(Exhausted) && conns == old(conns) && queue == []
      ensures old(queue) != [] ==>
                && result == Ok(old(queue)[0]) && queue == old(queue)[1..]
                && conns == old(conns)[old(queue)[0] := PoolConnection(InUse, old(conns)[old(queue)[0]].useCount + 1)]
    {
      if queue == [] {
        return Err(Exhausted);
      }
      var id := queue[0];
      queue := queue[1..];
      assert old(queue) == [id] + queue;
      if id !in conns {
        return Err(Exhausted);
      }
      ghost var keys := conns.Keys;
      conns := conns[id := PoolConnection(InUse, conns[id].useCount + 1)];
      assert conns.Keys == keys;
      available := available - 1;
      active := active + 1;
      return Ok(id);
    }

    /**
    Takes back a connection. The pool does not check that it had been handed out: the accounting survives
    exactly if the connection was not already available.
    */
    method ReturnConnection(id: nat) returns (result: Result<()>)
      requires Ready()
      modifies this
      ensures id !in old(conns) ==>
                result == Err(ConnectionNotFound) && Ready() && conns == old(conns) && queue == old(queue)
      ensures id in old(conns) ==>
                && result == Ok(())
                && queue == old(queue) + [id]
                && conns == old(conns)[id := PoolConnection(Available, old(conns)[id].useCount)]
                && total == old(total) && strategy == old(strategy)
      ensures id in old(conns) ==> (Ready() <==> id !in old(queue))
    {
      if id !in conns {
        return Err(ConnectionNotFound);
      }
      ghost var keys := conns.Keys;
      conns := conns[id := PoolConnection(Available, conns[id].useCount)];
      assert conns.Keys == keys;
      queue := queue + [id];
      available := available + 1;
      active := (active + WORD - 1) % WORD;
      if id !in old(queue) {
        assert Distinct(queue);
        DistinctFit(queue, conns.Keys);
        assert active == old(active) - 1;
      } else {
        assert queue[|queue| - 1] == id && id in queue[..|queue| - 1];
      }
      return Ok(());
    }

    /** Expands by the current factor when utilization has reached the threshold. */
    method SmartExpand() returns (result: Result<bool>)
      requires Ready()
      modifies this
      ensures Ready()
      ensures match Expand(old(total), old(available), maxSize, old(strategy))
              case NotNeeded =>
                && result == Ok(false)
                && total == old(total) && queue == old(queue) && conns == old(conns) && strategy == old(strategy)
              case TooLarge(size) =>
                && result == Err(ExpansionTooLarge(size))
                && total == old(total) && queue == old(queue) && conns == old(conns) && strategy == old(strategy)
              case GrowTo(size) =>
                && result == Ok(true)
                && size >= old(total) && total == size
                && queue == old(queue) + seq(size - old(total), i => old(nextId) + i)
                && (forall id :: id in old(conns) ==> id in conns && conns[id] == old(conns)[id])
                && strategy == Advance(old(strategy))
    {
      ghost var decision := Expand(total, available, maxSize, strategy);
      var utilization := if total > 0 then (total - available) as real / total as real else 0.0;
      if utilization < strategy.expandAt {
        assert decision == NotNeeded;
        return Ok(false);
      }
      var newSize := GrownSize();
      if newSize > maxSize {
        assert decision == TooLarge(newSize);
        return Err(ExpansionTooLarge(newSize));
      }
      assert decision == GrowTo(newSize);
      hide Expand, Scaled, Utilization;
      CreateConnections(newSize - total);
      strategy := Advance(strategy);
      return Ok(true);
    }

    method GrownSize() returns (size: nat)
      requires Valid()
      ensures size == Scaled(total, CurrentFactor(strategy)) && size >= total
    {
      var factor := CurrentFactor(strategy);
      MultiplyOrdered(1.0, factor, total as real);
      size := (total as real * factor).Floor;
    }

    /** Expands whatever the utilization, by setting the threshold to 0 for the duration. */
    method ForceExpand() returns (result: Result<bool>)
      requires Ready()
      modifies this
      ensures Ready() && strategy.expandAt == old(strategy).expandAt
      ensures var size := Scaled(old(total), CurrentFactor(old(strategy)));
              if size > maxSize then
                result == Err(ExpansionTooLarge(size)) && total == old(total) && strategy == old(strategy)
              else
                result == Ok(true) && total == size && strategy == Advance(old(strategy))
    {
      var original := strategy.expandAt;
      strategy := strategy.(expandAt := 0.0);
      assert Utilization(total, available) >= 0.0;
      result := SmartExpand();
      strategy := strategy.(expandAt := original);
    }

    /** Shrinks towards four fifths of the size, taking connections only from the available ones. */
    method TryShrink() returns (result: bool)
      requires Ready()
      modifies this
      ensures Ready() && strategy == old(strategy)
      ensures match Shrink(old(total), old(available), initialSize, old(strategy))
              case None => !result && total == old(total) && queue == old(queue) && conns == old(conns)
              case Some(count) =>
                && count <= old(available) && result == (count > 0)
                && total == old(total) - count && available == old(available) - count
                && queue == old(queue)[count..]
                && conns == Without(old(conns), old(queue)[..count])
    {
      if Utilization(total, available) > strategy.shrinkAt || total <= initialSize {
        return false;
      }
      var scaled := Scaled(total, SHRINK_FACTOR);
      var newSize := if scaled > initialSize then scaled else initialSize;
      if newSize >= total {
        return false;
      }
      var currentTotal, currentAvailable := total, available;
      var count := if currentTotal - newSize < currentAvailable then currentTotal - newSize else currentAvailable;
      var removed := RemoveAvailable(count);
      return removed > 0;
    }

    /** The shrink loop. */
    method RemoveAvailable(count: nat) returns (removed: nat)
      requires Valid() && count <= available
      modifies this
      ensures Valid() && strategy == old(strategy) && removed == count
      ensures total == old(total) - count && available == old(available) - count
      ensures queue == old(queue)[count..] && conns == Without(old(conns), old(queue)[..count])
    {
      removed := 0;
      for i := 0 to count
        invariant Valid() && strategy == old(strategy)
        invariant removed == i && total == old(total) - i && available == old(available) - i
        invariant queue == old(queue)[i..]
        invariant conns == Without(old(conns), old(queue)[..i])
      {
        RemoveFirst();
        assert old(queue)[..i + 1] == old(queue)[..i] + [old(queue)[i]];
        removed := removed + 1;
      }
    }

    /** One round of the shrink loop. */
    method RemoveFirst()
      requires Valid() && queue != []
      modifies this
      ensures Valid() && strategy == old(strategy)
      ensures queue == old(queue)[1..] && conns == old(conns) - {old(queue)[0]}
      ensures total == old(total) - 1 && available == old(available) - 1
    {
      var id := queue[0];
      queue := queue[1..];
      assert old(queue) == [id] + queue;
      ghost var keys := conns.Keys;
      conns := conns - {id};
      assert conns.Keys == keys - {id};
      assert |keys - {id}| == |keys| - 1;
      total := total - 1;
      available := available - 1;
    }
  }
}
