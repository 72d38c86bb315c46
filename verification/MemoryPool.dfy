/**
The buffer pool: a queue of idle buffers and a few counters for each of three size classes. The operations
are first given on values, with exact counts; the class then performs them as the program does, with loops
and with 64-bit counters that are adjusted one by one.
*/
module MemoryPool {
  import opened PacketCodec
  import opened Words

  const MAX_RETURNED: nat := 10 * 1024 * 1024
  const MEGABYTE: real := 1048576.0

  datatype BufferSize = Small | Medium | Large

  function Capacity(size: BufferSize): nat {
    match size
    case Small => 1024
    case Medium => 8192
    case Large => 65536
  }

  /** How many idle buffers of a class a new pool keeps. */
  function InitialLimit(size: BufferSize): nat {
    match size
    case Small => 500
    case Medium => 200
    case Large => 50
  }

  datatype Buffer = Buffer(capacity: nat, data: seq<Byte>)

  function NewBuffer(size: BufferSize): Buffer {
    Buffer(Capacity(size), [])
  }

  /**
  One size class. `stocked`, `kept`, `hits` and `cleared` count the buffers preallocated, taken back, handed out
  again and cleared away.
  */
  datatype Shelf = Shelf(
    buffers: seq<Buffer>,
    maxCached: nat,
    gets: nat,
    returned: nat,
    created: nat,
    stocked: nat,
    kept: nat,
    hits: nat,
    cleared: nat)

  datatype State = State(small: Shelf, medium: Shelf, large: Shelf) {
    function At(size: BufferSize): Shelf {
      match size
      case Small => small
      case Medium => medium
      case Large => large
    }

    function Put(size: BufferSize, shelf: Shelf): State {
      match size
      case Small => this.(small := shelf)
      case Medium => this.(medium := shelf)
      case Large => this.(large := shelf)
    }
  }

  datatype Op =
    | Preallocate(small: nat, medium: nat, large: nat)
    | Get(size: BufferSize)
    | Return(buffer: Buffer, size: BufferSize)
    | Adjust(threshold: real)
    | Clear

  function NewShelf(size: BufferSize): Shelf {
    Shelf([], InitialLimit(size), 0, 0, 0, 0, 0, 0, 0)
  }

  function NewPool(): State {
    State(NewShelf(Small), NewShelf(Medium), NewShelf(Large))
  }

  // ---------- the operations on values ----------

  function Stocked(shelf: Shelf, size: BufferSize, count: nat): Shelf {
    shelf.(buffers := shelf.buffers + seq(count, _ => NewBuffer(size)), stocked := shelf.stocked + count)
  }

  /** What `get_buffer` hands out: the buffer idle for longest, emptied, or a new one. */
  function Handed(shelf: Shelf, size: BufferSize): Buffer {
    if shelf.buffers == [] then NewBuffer(size) else shelf.buffers[0].(data := [])
  }

  function AfterGet(shelf: Shelf): Shelf {
    if shelf.buffers == [] then shelf.(gets := shelf.gets + 1, created := shelf.created + 1)
    else shelf.(gets := shelf.gets + 1, hits := shelf.hits + 1, buffers := shelf.buffers[1..])
  }

  predicate Abnormal(buffer: Buffer) {
    buffer.capacity == 0 || buffer.capacity > MAX_RETURNED
  }

  function AfterReturn(shelf: Shelf, buffer: Buffer): Shelf {
    if Abnormal(buffer) then shelf
    else if |shelf.buffers| % WORD >= shelf.maxCached then shelf.(returned := shelf.returned + 1)
    else shelf.(returned := shelf.returned + 1, kept := shelf.kept + 1, buffers := shelf.buffers + [buffer])
  }

  /** Four fifths, rounded down. */
  function Reduced(limit: nat): (reduced: nat)
    ensures 5 * reduced <= 4 * limit < 5 * reduced + 5
  {
    (limit as real * 0.8).Floor
  }

  function Tightened(shelf: Shelf): Shelf {
    shelf.(maxCached := Reduced(shelf.maxCached))
  }

  function Emptied(shelf: Shelf): Shelf {
    shelf.(buffers := [], cleared := shelf.cleared + |shelf.buffers|)
  }

  /** The bytes of the idle buffers, each counted with the capacity of its class. */
  function Weight(s: State): nat {
    |s.small.buffers| * Capacity(Small) + |s.medium.buffers| * Capacity(Medium) + |s.large.buffers| * Capacity(Large)
  }

  predicate UnderPressure(cachedBytes: nat, threshold: real) {
    cachedBytes as real / MEGABYTE > threshold
  }

  function Apply(s: State, op: Op): State {
    match op
    case Preallocate(small, medium, large) =>
      State(Stocked(s.small, Small, small), Stocked(s.medium, Medium, medium), Stocked(s.large, Large, large))
    case Get(size) => s.Put(size, AfterGet(s.At(size)))
    case Return(buffer, size) => s.Put(size, AfterReturn(s.At(size), buffer))
    case Adjust(threshold) =>
      if UnderPressure(Weight(s) % WORD, threshold) then
        State(Tightened(s.small), Tightened(s.medium), Tightened(s.large))
      else s
    case Clear => State(Emptied(s.small), Emptied(s.medium), Emptied(s.large))
  }

  function After(ops: seq<Op>): State {
    if ops == [] then NewPool() else Apply(After(ops[..|ops| - 1]), ops[|ops| - 1])
  }

  // ---------- theorems ----------

  ghost predicate ShelfOk(shelf: Shelf, size: BufferSize) {
    && shelf.gets == shelf.hits + shelf.created
    && |shelf.buffers| + shelf.hits + shelf.cleared == shelf.stocked + shelf.kept
    && shelf.kept <= shelf.returned
    && shelf.maxCached <= InitialLimit(size)
    && (shelf.stocked + InitialLimit(size) < WORD ==> |shelf.buffers| <= InitialLimit(size) + shelf.stocked)
  }

  /** How many buffers of a class an operation preallocates. */
  function StockFor(op: Op, size: BufferSize): nat {
    if !op.Preallocate? then 0
    else
      match size
      case Small => op.small
      case Medium => op.medium
      case Large => op.large
  }

  lemma OperationsKeepShelf(shelf: Shelf, size: BufferSize, count: nat, buffer: Buffer)
    requires ShelfOk(shelf, size)
    ensures ShelfOk(Stocked(shelf, size, count), size)
    ensures ShelfOk(AfterGet(shelf), size)
    ensures ShelfOk(AfterReturn(shelf, buffer), size)
    ensures ShelfOk(Tightened(shelf), size)
    ensures ShelfOk(Emptied(shelf), size)
  {
  }

  /**
  After any operations: every get was a hit or created a buffer; every buffer that was preallocated or taken
  back is idle, was handed out again or was cleared away; limits never grow, and only preallocation takes the
  idle buffers of a class beyond its first limit.
  */
  lemma {:induction false} BuffersConserved(ops: seq<Op>, size: BufferSize)
    ensures ShelfOk(After(ops).At(size), size)
    ensures After(ops).At(size).maxCached <= match size case Small => 500 case Medium => 200 case Large => 50
    ensures After([]).At(size).maxCached == match size case Small => 500 case Medium => 200 case Large => 50
  {
    hide Stocked, AfterGet, AfterReturn, Tightened, Emptied;
    if ops != [] {
      BuffersConserved(ops[..|ops| - 1], size);
      var s, op := After(ops[..|ops| - 1]), ops[|ops| - 1];
      OperationsKeepShelf(s.At(size), size, StockFor(op, size), if op.Return? then op.buffer else NewBuffer(size));
    } else {
      assert NewPool().At(size) == NewShelf(size);
    }
  }

  /** A caller that returns buffers under their own class, or under a class they are large enough for. */
  predicate Legal(op: Op) {
    op.Return? ==> Abnormal(op.buffer) || op.buffer.capacity >= Capacity(op.size)
  }

  ghost predicate LargeEnough(shelf: Shelf, size: BufferSize) {
    forall k :: 0 <= k < |shelf.buffers| ==> shelf.buffers[k].capacity >= Capacity(size)
  }

  lemma OperationsKeepLargeEnough(shelf: Shelf, size: BufferSize, count: nat, buffer: Buffer)
    requires LargeEnough(shelf, size) && (Abnormal(buffer) || buffer.capacity >= Capacity(size))
    ensures LargeEnough(Stocked(shelf, size, count), size)
    ensures LargeEnough(AfterGet(shelf), size)
    ensures LargeEnough(AfterReturn(shelf, buffer), size)
    ensures LargeEnough(Tightened(shelf), size)
    ensures LargeEnough(Emptied(shelf), size)
  {
  }

  /** If all buffers are returned legally, every buffer handed out is empty and large enough for its class. */
  lemma {:induction false} HandedBufferIsLargeEnough(ops: seq<Op>, size: BufferSize)
    requires forall k :: 0 <= k < |ops| ==> Legal(ops[k])
    ensures LargeEnough(After(ops).At(size), size)
    ensures Handed(After(ops).At(size), size).data == []
    ensures Handed(After(ops).At(size), size).capacity
         >= match size case Small => 1024 case Medium => 8192 case Large => 65536
  {
    hide Stocked, AfterGet, AfterReturn, Tightened, Emptied;
    if ops != [] {
      HandedBufferIsLargeEnough(ops[..|ops| - 1], size);
      var op := ops[|ops| - 1];
      assert Legal(op);
      OperationsKeepLargeEnough(After(ops[..|ops| - 1]).At(size), size, StockFor(op, size),
        if op.Return? && op.size == size then op.buffer else NewBuffer(size));
    } else {
      assert NewPool().At(size) == NewShelf(size);
    }
  }

  function AfterGets(shelf: Shelf, count: nat): Shelf
    decreases count
  {
    if count == 0 then shelf else AfterGets(AfterGet(shelf), count - 1)
  }

  lemma {:induction false} GetsTakeFromTheFront(shelf: Shelf, count: nat)
    requires count <= |shelf.buffers|
    ensures AfterGets(shelf, count).buffers == shelf.buffers[count..]
    decreases count
  {
    if count > 0 {
      GetsTakeFromTheFront(AfterGet(shelf), count - 1);
    }
  }

  /** A class is below its limit, so that a return is kept. */
  predicate Open(shelf: Shelf) {
    |shelf.buffers| % WORD < shelf.maxCached
  }

  /**
  A class whose idle buffers are all large enough stays so after a return exactly if the return was legal or
  the class is full. And a buffer that is kept comes back: once the buffers before it have been handed out, the
  next get hands it out, large enough exactly if its return was legal.
  */
  lemma SmallBufferComesBackExactlyWhenIllegal(shelf: Shelf, buffer: Buffer, size: BufferSize)
    requires LargeEnough(shelf, size)
    ensures LargeEnough(AfterReturn(shelf, buffer), size) <==> Legal(Return(buffer, size)) || !Open(shelf)
    ensures var next := AfterGets(AfterReturn(shelf, buffer), |shelf.buffers|);
      && (Open(shelf) && !Abnormal(buffer) ==> Handed(next, size) == buffer.(data := []))
      && (Open(shelf) ==> (Handed(next, size).capacity >= Capacity(size) <==> Legal(Return(buffer, size))))
  {
    var kept := AfterReturn(shelf, buffer);
    GetsTakeFromTheFront(kept, |shelf.buffers|);
    if Open(shelf) && !Abnormal(buffer) {
      assert kept.buffers[|shelf.buffers|] == buffer;
    }
  }

  /**
  A return keeps the buffer exactly if its capacity is neither 0 nor above 10 MiB and the class is below its limit;
  it is counted exactly if the capacity is acceptable, and touches no other class.
  */
  lemma ReturnKeepsExactlyWhen(s: State, buffer: Buffer, size: BufferSize, other: BufferSize)
    ensures var shelf, after := s.At(size), Apply(s, Return(buffer, size)).At(size);
      && after.buffers
         == (if 0 < buffer.capacity <= 10_485_760 && |shelf.buffers| % WORD < shelf.maxCached
             then shelf.buffers + [buffer] else shelf.buffers)
      && after.returned == shelf.returned + (if 0 < buffer.capacity <= 10_485_760 then 1 else 0)
      && after.maxCached == shelf.maxCached && after.gets == shelf.gets && after.created == shelf.created
    ensures other != size ==> Apply(s, Return(buffer, size)).At(other) == s.At(other)
  {
  }

  /** The bytes of idle buffers, as the counter of cached bytes knows them. */
  function CountedBytes(s: State): nat {
    (1024 * |s.small.buffers| + 8192 * |s.medium.buffers| + 65536 * |s.large.buffers|) % WORD
  }

  /** Limits are cut, to four fifths rounded down, exactly if the counted megabytes exceed the threshold. */
  lemma AdjustCutsExactlyWhen(s: State, threshold: real, size: BufferSize)
    ensures var shelf, after := s.At(size), Apply(s, Adjust(threshold)).At(size);
      && after == shelf.(maxCached := after.maxCached)
      && if CountedBytes(s) as real > threshold * 1048576.0
         then 5 * after.maxCached <= 4 * shelf.maxCached < 5 * after.maxCached + 5
         else after.maxCached == shelf.maxCached
  {
    var bytes := Weight(s) % WORD;
    assert bytes == CountedBytes(s);
    InMegabytes(bytes, threshold);
  }

  lemma InMegabytes(bytes: nat, threshold: real)
    ensures UnderPressure(bytes, threshold) <==> bytes as real > threshold * 1048576.0
  {
    var quotient := bytes as real / MEGABYTE;
    assert quotient * MEGABYTE == bytes as real;
  }

  // ---------- the pool itself ----------

  /** The 64-bit counters of one class. */
  datatype ClassCounters = ClassCounters(gets: nat, returned: nat, created: nat, cached: nat)

  datatype Totals = Totals(gets: nat, returned: nat, hits: nat, misses: nat, createdBytes: nat, cachedBytes: nat)

  function Increment(counter: nat): nat {
    (counter + 1) % WORD
  }

  ghost predicate Counts(counters: ClassCounters, shelf: Shelf) {
    && counters.gets == shelf.gets % WORD
    && counters.returned == shelf.returned % WORD
    && counters.created == shelf.created % WORD
    && counters.cached == |shelf.buffers| % WORD
  }

  function CreatedBytes(s: State): nat {
    s.small.created * Capacity(Small) + s.medium.created * Capacity(Medium) + s.large.created * Capacity(Large)
  }

  ghost predicate Totalled(totals: Totals, s: State) {
    CountsTotalled(totals, s) && BytesTotalled(totals, s)
  }

  ghost predicate CountsTotalled(totals: Totals, s: State) {
    && totals.gets == (s.small.gets + s.medium.gets + s.large.gets) % WORD
    && totals.returned == (s.small.returned + s.medium.returned + s.large.returned) % WORD
    && totals.hits == (s.small.hits + s.medium.hits + s.large.hits) % WORD
    && totals.misses == (s.small.created + s.medium.created + s.large.created) % WORD
  }

  ghost predicate BytesTotalled(totals: Totals, s: State) {
    && totals.createdBytes == CreatedBytes(s) % WORD
    && totals.cachedBytes == Weight(s) % WORD
  }

  lemma CountUp(count: int)
    ensures (count % WORD + 1) % WORD == (count + 1) % WORD
    ensures (count % WORD - 1) % WORD == (count - 1) % WORD
  {
    AddThenReduce(count, 1);
    AddThenReduce(count, -1);
  }

  predicate Unused(shelf: Shelf) {
    shelf.buffers == [] && shelf.gets == 0 && shelf.returned == 0 && shelf.hits == 0 && shelf.created == 0
  }

  lemma UnusedTotalled(totals: Totals, s: State)
    requires Unused(s.small) && Unused(s.medium) && Unused(s.large)
    requires totals == Totals(0, 0, 0, 0, 0, 0)
    ensures Totalled(totals, s)
  {
  }

  lemma NewPoolTotalled(totals: Totals)
    requires totals == Totals(0, 0, 0, 0, 0, 0)
    ensures Totalled(totals, NewPool())
  {
    hide Totalled;
    UnusedTotalled(totals, NewPool());
  }

  function TotalsAfterGet(totals: Totals, size: BufferSize, hit: bool): Totals {
    if hit then
      totals.(gets := Increment(totals.gets), hits := Increment(totals.hits),
              cachedBytes := (totals.cachedBytes - Capacity(size)) % WORD)
    else
      totals.(gets := Increment(totals.gets), misses := Increment(totals.misses),
              createdBytes := (totals.createdBytes + Capacity(size)) % WORD)
  }

  lemma GetKeepsCounts(totals: Totals, s: State, size: BufferSize)
    requires CountsTotalled(totals, s)
    ensures CountsTotalled(TotalsAfterGet(totals, size, s.At(size).buffers != []), Apply(s, Get(size)))
  {
    CountUp(s.small.gets + s.medium.gets + s.large.gets);
    CountUp(s.small.hits + s.medium.hits + s.large.hits);
    CountUp(s.small.created + s.medium.created + s.large.created);
  }

  lemma GetKeepsCreatedBytes(totals: Totals, s: State, size: BufferSize)
    requires totals.createdBytes == CreatedBytes(s) % WORD
    ensures TotalsAfterGet(totals, size, s.At(size).buffers != []).createdBytes
         == CreatedBytes(Apply(s, Get(size))) % WORD
  {
    AddThenReduce(CreatedBytes(s), Capacity(size));
    if size.Small? {
    } else if size.Medium? {
    } else {
    }
  }

  lemma GetKeepsCachedBytes(totals: Totals, s: State, size: BufferSize)
    requires totals.cachedBytes == Weight(s) % WORD
    ensures TotalsAfterGet(totals, size, s.At(size).buffers != []).cachedBytes == Weight(Apply(s, Get(size))) % WORD
  {
    AddThenReduce(Weight(s), 0 - Capacity(size));
    if size.Small? {
    } else if size.Medium? {
    } else {
    }
  }

  lemma GetKeepsBytes(totals: Totals, s: State, size: BufferSize)
    requires BytesTotalled(totals, s)
    ensures BytesTotalled(TotalsAfterGet(totals, size, s.At(size).buffers != []), Apply(s, Get(size)))
  {
    hide CreatedBytes, Weight, Apply, TotalsAfterGet;
    GetKeepsCreatedBytes(totals, s, size);
    GetKeepsCachedBytes(totals, s, size);
  }

  lemma ReturnKeepsTotals(totals: Totals, s: State, buffer: Buffer, size: BufferSize)
    requires Totalled(totals, s) && !Abnormal(buffer)
    ensures var kept := |s.At(size).buffers| % WORD < s.At(size).maxCached;
      Totalled(
        totals.(returned := Increment(totals.returned),
                cachedBytes := if kept then (totals.cachedBytes + Capacity(size)) % WORD else totals.cachedBytes),
        Apply(s, Return(buffer, size)))
  {
    CountUp(s.small.returned + s.medium.returned + s.large.returned);
    AddThenReduce(Weight(s), Capacity(size));
    if size.Small? {
    } else if size.Medium? {
    } else {
    }
  }

  lemma StockKeepsTotals(totals: Totals, s: State, size: BufferSize)
    requires Totalled(totals, s)
    ensures Totalled(
      totals.(cachedBytes := (totals.cachedBytes + Capacity(size)) % WORD), s.Put(size, Stocked(s.At(size), size, 1)))
  {
    AddThenReduce(Weight(s), Capacity(size));
  }

  /** One class of the pool; `exact` is its value with unbounded counts, and only observes. */
  class SizeClass {
    const size: BufferSize
    var buffers: seq<Buffer>
    var limit: nat
    var counters: ClassCounters
    ghost var exact: Shelf

    ghost predicate Valid()
      reads this
    {
      buffers == exact.buffers && limit == exact.maxCached && Counts(counters, exact)
    }

    constructor (size: BufferSize)
      ensures Valid() && this.size == size && exact == NewShelf(size)
    {
      this.size, buffers, limit := size, [], InitialLimit(size);
      counters, exact := ClassCounters(0, 0, 0, 0), NewShelf(size);
    }

    method Stock()
      requires Valid()
      modifies this
      ensures Valid() && exact == Stocked(old(exact), size, 1)
    {
      CountUp(|buffers|);
      buffers := buffers + [NewBuffer(size)];
      counters := counters.(cached := Increment(counters.cached));
      exact := Stocked(exact, size, 1);
    }

    method Take() returns (hit: bool, buffer: Buffer)
      requires Valid()
      modifies this
      ensures Valid() && exact == AfterGet(old(exact))
      ensures buffer == Handed(old(exact), size) && hit == (old(exact).buffers != [])
    {
      CountUp(exact.gets);
      CountUp(exact.created);
      CountUp(|buffers|);
      exact := AfterGet(exact);
      counters := counters.(gets := Increment(counters.gets));
      hit := buffers != [];
      if hit {
        buffer := buffers[0].(data := []);
        buffers := buffers[1..];
        counters := counters.(cached := (counters.cached - 1) % WORD);
      } else {
        buffer := NewBuffer(size);
        counters := counters.(created := Increment(counters.created));
      }
    }

    /** Takes a buffer back if the class is below its limit. */
    method Keep(buffer: Buffer) returns (kept: bool)
      requires Valid() && !Abnormal(buffer)
      modifies this
      ensures Valid() && exact == AfterReturn(old(exact), buffer)
      ensures kept == (|old(exact).buffers| % WORD < old(exact).maxCached)
    {
      CountUp(exact.returned);
      CountUp(|buffers|);
      exact := AfterReturn(exact, buffer);
      counters := counters.(returned := Increment(counters.returned));
      kept := counters.cached < limit;
      if kept {
        buffers := buffers + [buffer];
        counters := counters.(cached := Increment(counters.cached));
      }
    }

    method Tighten()
      requires Valid()
      modifies this
      ensures Valid() && exact == Tightened(old(exact))
    {
      limit := Reduced(limit);
      exact := Tightened(exact);
    }

    method Clear() returns (count: nat)
      requires Valid()
      modifies this
      ensures Valid() && exact == Emptied(old(exact)) && count == |old(exact).buffers|
    {
      count := 0;
      while buffers != []
        invariant Valid() && count <= |old(exact).buffers|
        invariant exact == old(exact).(buffers := old(exact).buffers[count..], cleared := old(exact).cleared + count)
        decreases |buffers|
      {
        CountUp(|buffers|);
        buffers := buffers[1..];
        count := count + 1;
        counters := counters.(cached := (counters.cached - 1) % WORD);
        exact := exact.(buffers := buffers, cleared := exact.cleared + 1);
      }
    }
  }

  class Pool {
    const small: SizeClass
    const medium: SizeClass
    const large: SizeClass
    var totals: Totals

    /** Every counter is the exact count, modulo the word. */
    ghost predicate Valid()
      reads this, small, medium, large
    {
      && small != medium && medium != large && small != large
      && small.size == Small && medium.size == Medium && large.size == Large
      && small.Valid() && medium.Valid() && large.Valid()
      && Totalled(totals, Exact())
    }

    ghost function Exact(): State
      reads small, medium, large
    {
      State(small.exact, medium.exact, large.exact)
    }

    function Class(size: BufferSize): SizeClass {
      match size
      case Small => small
      case Medium => medium
      case Large => large
    }

    constructor ()
      ensures Valid() && Exact() == NewPool()
      ensures fresh(small) && fresh(medium) && fresh(large)
    {
      hide Totalled;
      small := new SizeClass(Small);
      medium := new SizeClass(Medium);
      large := new SizeClass(Large);
      totals := Totals(0, 0, 0, 0, 0, 0);
      new;
      NewPoolTotalled(totals);
      assert Exact() == NewPool();
    }

    method Preallocate(smallCount: nat, mediumCount: nat, largeCount: nat)
      requires Valid()
      modifies this, small, medium, large
      ensures Valid() && Exact() == Apply(old(Exact()), Op.Preallocate(smallCount, mediumCount, largeCount))
    {
      PreallocateClass(Small, smallCount);
      PreallocateClass(Medium, mediumCount);
      PreallocateClass(Large, largeCount);
    }

    method PreallocateClass(size: BufferSize, count: nat)
      requires Valid()
      modifies this, Class(size)
      ensures Valid() && Exact() == old(Exact()).Put(size, Stocked(old(Exact()).At(size), size, count))
    {
      var i := 0;
      while i < count
        invariant i <= count && Valid()
        invariant Exact() == old(Exact()).Put(size, Stocked(old(Exact()).At(size), size, i))
      {
        StockKeepsTotals(totals, Exact(), size);
        StockMore(old(Exact()).At(size), size, i);
        Class(size).Stock();
        totals := totals.(cachedBytes := (totals.cachedBytes + Capacity(size)) % WORD);
        i := i + 1;
      }
    }

    method Get(size: BufferSize) returns (buffer: Buffer)
      requires Valid()
      modifies this, Class(size)
      ensures Valid() && Exact() == Apply(old(Exact()), Op.Get(size))
      ensures buffer == Handed(old(Exact()).At(size), size)
    {
      GetKeepsCounts(totals, Exact(), size);
      GetKeepsBytes(totals, Exact(), size);
      totals := totals.(gets := Increment(totals.gets));
      var hit: bool;
      hit, buffer := Class(size).Take();
      if hit {
        totals := totals.(hits := Increment(totals.hits), cachedBytes := (totals.cachedBytes - Capacity(size)) % WORD);
      } else {
        totals := totals.(misses := Increment(totals.misses),
                          createdBytes := (totals.createdBytes + Capacity(size)) % WORD);
      }
    }

    method Return(buffer: Buffer, size: BufferSize)
      requires Valid()
      modifies this, Class(size)
      ensures Valid() && Exact() == Apply(old(Exact()), Op.Return(buffer, size))
    {
      if buffer.capacity == 0 || buffer.capacity > MAX_RETURNED {
        return;
      }
      ReturnKeepsTotals(totals, Exact(), buffer, size);
      totals := totals.(returned := Increment(totals.returned));
      var kept := Class(size).Keep(buffer);
      if kept {
        totals := totals.(cachedBytes := (totals.cachedBytes + Capacity(size)) % WORD);
      }
    }

    method Adjust(threshold: real)
      requires Valid()
      modifies small, medium, large
      ensures Valid() && Exact() == Apply(old(Exact()), Op.Adjust(threshold))
    {
      if UnderPressure(totals.cachedBytes, threshold) {
        small.Tighten();
        medium.Tighten();
        large.Tighten();
      }
    }

    /** Stores 0 in the counter of cached bytes at the end, which is exact because every queue is empty. */
    method Clear() returns (count: nat)
      requires Valid()
      modifies this, small, medium, large
      ensures Valid() && Exact() == Apply(old(Exact()), Op.Clear)
      ensures count == |old(Exact()).small.buffers| + |old(Exact()).medium.buffers| + |old(Exact()).large.buffers|
    {
      var smallCount := small.Clear();
      var mediumCount := medium.Clear();
      var largeCount := large.Clear();
      totals := totals.(cachedBytes := 0);
      count := smallCount + mediumCount + largeCount;
    }
  }

  lemma StockMore(shelf: Shelf, size: BufferSize, count: nat)
    ensures Stocked(Stocked(shelf, size, count), size, 1) == Stocked(shelf, size, count + 1)
  {
    assert seq(count, _ => NewBuffer(size)) + seq(1, _ => NewBuffer(size)) == seq(count + 1, _ => NewBuffer(size));
  }
}
