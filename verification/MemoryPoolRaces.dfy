/**
The buffer pool under concurrent callers: gets, returns and clears of one pool interleave at every access to a
queue or a counter. What idle buffers hold does not matter here, only how many there are in each class. A return
looks at the counter of its class before it pushes, and a clear ends by storing 0 as the number of cached bytes.
*/
module MemoryPoolRaces {
  import opened Counting
  import opened MemoryPool
  import opened Runs
  import opened Words

  /** A number for each size class. */
  datatype Sizes = Sizes(small: nat, medium: nat, large: nat) {
    function At(size: BufferSize): nat {
      match size
      case Small => small
      case Medium => medium
      case Large => large
    }

    function Put(size: BufferSize, n: nat): Sizes {
      match size
      case Small => this.(small := n)
      case Medium => this.(medium := n)
      case Large => this.(large := n)
    }
  }

  /** A returned buffer is one that is not rejected at once. */
  datatype Call = GetBuffer(size: BufferSize) | ReturnBuffer(size: BufferSize) | ClearCache

  datatype Pc =
    | Unstarted(call: Call)
    // get_buffer, after a hit: popped; class counter updated
    | Popped(size: BufferSize)
    | PoppedCounted(size: BufferSize)
    // return_buffer: below the limit; pushed; class counter updated
    | Approved(size: BufferSize)
    | Stored(size: BufferSize)
    | StoredCounted(size: BufferSize)
    // clear_cache: popping a class; popped, class counter to be updated; about to store 0
    | Clearing(size: BufferSize)
    | Cleared(size: BufferSize)
    | Zeroing
    | Done

  datatype State = PoolState(idle: Sizes, cached: Sizes, bytes: nat, limits: Sizes, threads: seq<Pc>)

  function Weight(idle: Sizes): nat {
    idle.small * Capacity(Small) + idle.medium * Capacity(Medium) + idle.large * Capacity(Large)
  }

  function Unstarteds(calls: seq<Call>): seq<Pc> {
    seq(|calls|, c requires 0 <= c < |calls| => Unstarted(calls[c]))
  }

  /** A pool at rest whose counters are right, and calls that are about to start. */
  function Start(idle: Sizes, limits: Sizes, calls: seq<Call>): State {
    var cached := Sizes(idle.small % WORD, idle.medium % WORD, idle.large % WORD);
    PoolState(idle, cached, Weight(idle) % WORD, limits, Unstarteds(calls))
  }

  ghost predicate Enabled(s: State, t: nat) {
    t < |s.threads| && !s.threads[t].Done?
  }

  function NextClass(size: BufferSize): Pc {
    match size
    case Small => Clearing(Medium)
    case Medium => Clearing(Large)
    case Large => Zeroing
  }

  ghost function Exec(s: State, t: nat): State
    requires Enabled(s, t)
  {
    match s.threads[t]
    case Unstarted(GetBuffer(size)) =>
      if s.idle.At(size) == 0 then s.(threads := s.threads[t := Done])
      else s.(idle := s.idle.Put(size, s.idle.At(size) - 1), threads := s.threads[t := Popped(size)])
    case Unstarted(ReturnBuffer(size)) =>
      s.(threads := s.threads[t := if s.cached.At(size) < s.limits.At(size) then Approved(size) else Done])
    case Unstarted(ClearCache) => s.(threads := s.threads[t := Clearing(Small)])
    case Popped(size) =>
      s.(cached := s.cached.Put(size, (s.cached.At(size) - 1) % WORD), threads := s.threads[t := PoppedCounted(size)])
    case PoppedCounted(size) =>
      s.(bytes := (s.bytes - Capacity(size)) % WORD, threads := s.threads[t := Done])
    case Approved(size) =>
      s.(idle := s.idle.Put(size, s.idle.At(size) + 1), threads := s.threads[t := Stored(size)])
    case Stored(size) =>
      s.(cached := s.cached.Put(size, (s.cached.At(size) + 1) % WORD), threads := s.threads[t := StoredCounted(size)])
    case StoredCounted(size) =>
      s.(bytes := (s.bytes + Capacity(size)) % WORD, threads := s.threads[t := Done])
    case Clearing(size) =>
      if s.idle.At(size) == 0 then s.(threads := s.threads[t := NextClass(size)])
      else s.(idle := s.idle.Put(size, s.idle.At(size) - 1), threads := s.threads[t := Cleared(size)])
    case Cleared(size) =>
      s.(cached := s.cached.Put(size, (s.cached.At(size) - 1) % WORD), threads := s.threads[t := Clearing(size)])
    case Zeroing => s.(bytes := 0, threads := s.threads[t := Done])
  }

  ghost predicate Next(s: State, s': State) {
    exists t :: Enabled(s, t) && s' == Exec(s, t)
  }

  ghost predicate RunFrom(start: State, run: seq<State>) {
    IsRun((s: State) => s == start, Next, run)
  }

  ghost predicate Reaches(start: State, s: State) {
    exists run :: RunFrom(start, run) && run[|run| - 1] == s
  }

  lemma InvariantOfReached(start: State, s: State, inv: State -> bool)
    requires Reaches(start, s) && inv(start)
    requires forall s, t :: inv(s) && Enabled(s, t) ==> inv(Exec(s, t))
    ensures inv(s)
  {
    hide Exec;
    var run :| RunFrom(start, run) && run[|run| - 1] == s;
    InvariantOfRun((s: State) => s == start, Next, inv, run);
  }

  lemma RunReaches(start: State, run: seq<State>, n: nat)
    requires RunFrom(start, run) && n < |run|
    ensures Reaches(start, run[n])
  {
    var prefix := run[..n + 1];
    assert RunFrom(start, prefix) by {
      forall i | 0 <= i < |prefix| - 1
        ensures Next(prefix[i], prefix[i + 1])
      {
        assert Next(run[i], run[i + 1]);
      }
    }
    assert prefix[|prefix| - 1] == run[n];
  }

  // ---------- what is owed ----------

  /** Pushed, but not yet counted in its class. */
  ghost function OwesUp(size: BufferSize): Pc -> nat {
    (pc: Pc) => if pc == Stored(size) then 1 else 0
  }

  /** Popped, but still counted in its class. */
  ghost function OwesDown(size: BufferSize): Pc -> nat {
    (pc: Pc) => if pc == Popped(size) || pc == Cleared(size) then 1 else 0
  }

  /** Past the look at the limit, and not yet counted. */
  ghost function InReturn(size: BufferSize): Pc -> nat {
    (pc: Pc) => if pc == Approved(size) || pc == Stored(size) then 1 else 0
  }

  /** Returns that have not looked at the limit, or are past it and not yet counted. */
  ghost function MayReturn(size: BufferSize): Pc -> nat {
    (pc: Pc) => if pc == Unstarted(ReturnBuffer(size)) || pc == Approved(size) || pc == Stored(size) then 1 else 0
  }

  /** The number the counter of a class stands for, corrected by the updates owed. */
  ghost function Count(s: State, size: BufferSize): int {
    s.idle.At(size) - Sum(OwesUp(size), s.threads) + Sum(OwesDown(size), s.threads)
  }

  ghost predicate CountOk(s: State, size: BufferSize) {
    s.cached.At(size) == Count(s, size) % WORD
  }

  lemma OnlyMoverMoves(s: State, t: nat)
    requires Enabled(s, t)
    ensures Exec(s, t).threads == s.threads[t := Exec(s, t).threads[t]] && Exec(s, t).limits == s.limits
  {
  }

  lemma SumsStep(s: State, t: nat, size: BufferSize)
    requires Enabled(s, t)
    ensures var threads, pc, pc' := Exec(s, t).threads, s.threads[t], Exec(s, t).threads[t];
      && Sum(OwesUp(size), threads) + OwesUp(size)(pc) == Sum(OwesUp(size), s.threads) + OwesUp(size)(pc')
      && Sum(OwesDown(size), threads) + OwesDown(size)(pc) == Sum(OwesDown(size), s.threads) + OwesDown(size)(pc')
      && Sum(InReturn(size), threads) + InReturn(size)(pc) == Sum(InReturn(size), s.threads) + InReturn(size)(pc')
      && Sum(MayReturn(size), threads) + MayReturn(size)(pc) == Sum(MayReturn(size), s.threads) + MayReturn(size)(pc')
  {
    OnlyMoverMoves(s, t);
    var pc' := Exec(s, t).threads[t];
    SumUpdate(OwesUp(size), s.threads, t, pc');
    SumUpdate(OwesDown(size), s.threads, t, pc');
    SumUpdate(InReturn(size), s.threads, t, pc');
    SumUpdate(MayReturn(size), s.threads, t, pc');
  }

  lemma KeepsCount(s: State, t: nat, size: BufferSize)
    requires CountOk(s, size) && Enabled(s, t)
    ensures CountOk(Exec(s, t), size)
  {
    hide Sum;
    SumsStep(s, t, size);
    AddThenReduce(Count(s, size), 1);
    AddThenReduce(Count(s, size), -1);
    if size.Small? {
    } else if size.Medium? {
    } else {
    }
  }

  // ---------- the limit ----------

  ghost function IsReturn(size: BufferSize): Call -> nat {
    (call: Call) => if call == ReturnBuffer(size) then 1 else 0
  }

  /** How many of the calls return a buffer of this class. */
  ghost function Returns(calls: seq<Call>, size: BufferSize): nat {
    Sum(IsReturn(size), calls)
  }

  /** At no time in the run are there more returns of the class between their look at the limit and their count. */
  ghost predicate AtMostAtOnce(run: seq<State>, size: BufferSize, most: nat) {
    forall n :: 0 <= n < |run| ==> Sum(InReturn(size), run[n].threads) <= most
  }

  /** With `most` returns at once a class that is below its limit may exceed it by all of them but one. */
  function MostIdle(idle: nat, limit: nat, most: nat): nat {
    if most == 0 || limit == 0 || idle >= limit + most - 1 then idle else limit + most - 1
  }

  ghost predicate LimitOk(s: State, size: BufferSize, bound: nat) {
    CountOk(s, size) && Count(s, size) + Sum(InReturn(size), s.threads) <= bound
  }

  lemma {:induction false} SumMonotone<T>(less: T -> nat, more: T -> nat, threads: seq<T>)
    requires forall pc :: pc in threads ==> less(pc) <= more(pc)
    ensures Sum(less, threads) <= Sum(more, threads)
  {
    if threads != [] {
      assert threads[0] in threads;
      SumMonotone(less, more, threads[1..]);
    }
  }

  lemma KeepsLimit(s: State, t: nat, size: BufferSize, idle: nat, most: nat)
    requires LimitOk(s, size, MostIdle(idle, s.limits.At(size), most)) && Enabled(s, t)
    requires MostIdle(idle, s.limits.At(size), most) < WORD
    requires Sum(InReturn(size), Exec(s, t).threads) <= most
    ensures LimitOk(Exec(s, t), size, MostIdle(idle, s.limits.At(size), most))
  {
    hide Sum;
    KeepsCount(s, t, size);
    SumsStep(s, t, size);
    if s.threads[t] == Unstarted(ReturnBuffer(size)) {
      CountBelow(Count(s, size), s.cached.At(size));
    }
  }

  /** A count below the word is at most its remainder. */
  lemma CountBelow(count: int, remainder: nat)
    requires remainder == count % WORD && count < WORD
    ensures count <= remainder
  {
  }

  lemma {:induction false} StartSums(calls: seq<Call>, size: BufferSize)
    ensures Sum(OwesUp(size), Unstarteds(calls)) == 0
    ensures Sum(OwesDown(size), Unstarteds(calls)) == 0
    ensures Sum(InReturn(size), Unstarteds(calls)) == 0
    ensures Sum(MayReturn(size), Unstarteds(calls)) == Returns(calls, size)
  {
    if calls != [] {
      assert Unstarteds(calls)[1..] == Unstarteds(calls[1..]);
      StartSums(calls[1..], size);
    }
  }

  /**
  Returns look at the limit and push separately, so a class may exceed its limit. However many calls a run has, it
  exceeds it by less than the number of returns that were in progress at once.
  */
  lemma IdleWithinBound(
    idle: Sizes, limits: Sizes, calls: seq<Call>, run: seq<State>, n: nat, size: BufferSize, most: nat
  )
    requires RunFrom(Start(idle, limits, calls), run) && n < |run| && AtMostAtOnce(run, size, most)
    requires MostIdle(idle.At(size), limits.At(size), most) < WORD
    ensures run[n].idle.At(size) <= MostIdle(idle.At(size), limits.At(size), most)
  {
    hide MostIdle;
    var start, bound := Start(idle, limits, calls), MostIdle(idle.At(size), limits.At(size), most);
    var inv := (s: State) => LimitOk(s, size, bound) && s.limits == limits;
    var next := (s: State, s': State) => Next(s, s') && Sum(InReturn(size), s'.threads) <= most;
    StartSums(calls, size);
    IdleIsWithin(idle.At(size), limits.At(size), most);
    assert inv(start);
    forall s, s' | inv(s) && next(s, s')
      ensures inv(s')
    {
      var t :| Enabled(s, t) && s' == Exec(s, t);
      KeepsLimit(s, t, size, idle.At(size), most);
      OnlyMoverMoves(s, t);
    }
    InvariantOfRun((s: State) => s == start, next, inv, run);
    assert inv(run[n]);
    SumMonotone(OwesUp(size), InReturn(size), run[n].threads);
  }

  lemma IdleIsWithin(idle: nat, limit: nat, most: nat)
    ensures idle <= MostIdle(idle, limit, most)
  {
  }

  lemma AtMostAllAtOnce(idle: Sizes, limits: Sizes, calls: seq<Call>, run: seq<State>, size: BufferSize)
    requires RunFrom(Start(idle, limits, calls), run)
    ensures AtMostAtOnce(run, size, Returns(calls, size))
  {
    hide RunFrom, Sum, Exec;
    var start := Start(idle, limits, calls);
    var inv := (s: State) => Sum(MayReturn(size), s.threads) <= Returns(calls, size);
    StartSums(calls, size);
    forall n | 0 <= n < |run|
      ensures Sum(InReturn(size), run[n].threads) <= Returns(calls, size)
    {
      RunReaches(start, run, n);
      forall s, t | inv(s) && Enabled(s, t)
        ensures inv(Exec(s, t))
      {
        FewerMayReturn(s, t, size);
      }
      InvariantOfReached(start, run[n], inv);
      SumMonotone(InReturn(size), MayReturn(size), run[n].threads);
    }
  }

  lemma FewerMayReturn(s: State, t: nat, size: BufferSize)
    requires Enabled(s, t)
    ensures Sum(MayReturn(size), Exec(s, t).threads) <= Sum(MayReturn(size), s.threads)
  {
    hide Sum;
    SumsStep(s, t, size);
  }

  // The bound is reached.

  lemma Begin(start: State)
    ensures Reaches(start, start)
  {
    var run := [start];
    assert RunFrom(start, run) && run[|run| - 1] == start;
  }

  lemma Continue(start: State, s: State, t: nat)
    requires Reaches(start, s) && Enabled(s, t)
    ensures Reaches(start, Exec(s, t))
  {
    var run :| RunFrom(start, run) && run[|run| - 1] == s;
    var longer := run + [Exec(s, t)];
    forall i | 0 <= i < |longer| - 1
      ensures Next(longer[i], longer[i + 1])
    {
      assert i < |run| - 1 ==> Next(run[i], run[i + 1]);
    }
    assert RunFrom(start, longer) && longer[|longer| - 1] == Exec(s, t);
  }

  /** The threads when the returns of a class among the first `count` calls have come to `pc`. */
  ghost function ReturnsAt(calls: seq<Call>, size: BufferSize, count: nat, pc: Pc, others: Pc): seq<Pc> {
    seq(|calls|, c requires 0 <= c < |calls| =>
      if calls[c] != ReturnBuffer(size) then Unstarted(calls[c])
      else if c < count then pc
      else others)
  }

  /** All returns of a class that is below its limit look at the limit before any of them pushes. */
  lemma ApproveAll(idle: Sizes, limits: Sizes, calls: seq<Call>, size: BufferSize) returns (s: State)
    requires idle.At(size) < limits.At(size) < WORD
    ensures Reaches(Start(idle, limits, calls), s)
    ensures s == Start(idle, limits, calls).(
                   threads := ReturnsAt(calls, size, |calls|, Approved(size), Unstarted(ReturnBuffer(size))))
  {
    hide Reaches;
    var start, first := Start(idle, limits, calls), Unstarted(ReturnBuffer(size));
    Begin(start);
    s := start;
    assert start.threads == ReturnsAt(calls, size, 0, Approved(size), first);
    for c := 0 to |calls|
      invariant Reaches(start, s)
      invariant s == start.(threads := ReturnsAt(calls, size, c, Approved(size), first))
    {
      var threads := ReturnsAt(calls, size, c + 1, Approved(size), first);
      if calls[c] == ReturnBuffer(size) {
        Continue(start, s, c);
        s := Exec(s, c);
        assert threads == ReturnsAt(calls, size, c, Approved(size), first)[c := Approved(size)];
      } else {
        assert threads == ReturnsAt(calls, size, c, Approved(size), first);
      }
    }
  }

  /** From the looks on, all these returns push. */
  lemma StoreAll(start: State, calls: seq<Call>, size: BufferSize, approved: State) returns (s: State)
    requires Reaches(start, approved)
    requires approved.threads == ReturnsAt(calls, size, 0, Stored(size), Approved(size))
    ensures Reaches(start, s) && s.idle.At(size) == approved.idle.At(size) + Returns(calls, size)
  {
    hide Reaches;
    s := approved;
    for c := 0 to |calls|
      invariant Reaches(start, s)
      invariant s.threads == ReturnsAt(calls, size, c, Stored(size), Approved(size))
      invariant s.idle.At(size) == approved.idle.At(size) + Returns(calls[..c], size)
    {
      var threads := ReturnsAt(calls, size, c + 1, Stored(size), Approved(size));
      assert calls[..c + 1] == calls[..c] + [calls[c]];
      SumSnoc(IsReturn(size), calls[..c], calls[c]);
      if calls[c] == ReturnBuffer(size) {
        Continue(start, s, c);
        s := Exec(s, c);
        assert threads == ReturnsAt(calls, size, c, Stored(size), Approved(size))[c := Stored(size)];
      } else {
        assert threads == ReturnsAt(calls, size, c, Stored(size), Approved(size));
      }
    }
    assert calls[..|calls|] == calls;
  }

  /** The bound is exact: from just below its limit, a class can be brought to it. */
  lemma BoundIsReached(idle: Sizes, limits: Sizes, calls: seq<Call>, size: BufferSize) returns (run: seq<State>)
    requires idle.At(size) + 1 == limits.At(size) < WORD && Returns(calls, size) > 0
    ensures RunFrom(Start(idle, limits, calls), run) && AtMostAtOnce(run, size, Returns(calls, size))
    ensures run[|run| - 1].idle.At(size) == MostIdle(idle.At(size), limits.At(size), Returns(calls, size))
  {
    hide Returns;
    var start := Start(idle, limits, calls);
    var approved := ApproveAll(idle, limits, calls, size);
    assert ReturnsAt(calls, size, 0, Stored(size), Approved(size)) == approved.threads;
    var s := StoreAll(start, calls, size, approved);
    run :| RunFrom(start, run) && run[|run| - 1] == s;
    AtMostAllAtOnce(idle, limits, calls, run, size);
  }

  // ---------- the zero that a clear stores ----------

  ghost predicate AtRest(s: State) {
    forall t :: 0 <= t < |s.threads| ==> s.threads[t].Done?
  }

  ghost predicate BytesRight(s: State) {
    s.bytes == Weight(s.idle) % WORD
  }

  /** A return that may be kept, or a get that may find a buffer. */
  predicate Disturbs(idle: Sizes, limits: Sizes, call: Call) {
    match call
    case ReturnBuffer(size) => limits.At(size) > 0
    case GetBuffer(size) => idle.At(size) > 0
    case ClearCache => false
  }

  predicate SomeDisturb(idle: Sizes, limits: Sizes, calls: seq<Call>) {
    exists c :: 0 <= c < |calls| && Disturbs(idle, limits, calls[c])
  }

  /** In every run, once all calls have returned, the counter of cached bytes is right. */
  ghost predicate BytesStayRight(idle: Sizes, limits: Sizes, calls: seq<Call>) {
    forall s :: Reaches(Start(idle, limits, calls), s) && AtRest(s) ==> BytesRight(s)
  }

  // Without a clear, the bytes are right up to what is owed.

  ghost predicate Clears(pc: Pc) {
    pc == Unstarted(ClearCache) || pc.Clearing? || pc.Cleared? || pc.Zeroing?
  }

  ghost function BytesUp(): Pc -> nat {
    (pc: Pc) => if pc.Stored? || pc.StoredCounted? then Capacity(pc.size) else 0
  }

  ghost function BytesDown(): Pc -> nat {
    (pc: Pc) => if pc.Popped? || pc.PoppedCounted? then Capacity(pc.size) else 0
  }

  ghost function Bytes(s: State): int {
    Weight(s.idle) - Sum(BytesUp(), s.threads) + Sum(BytesDown(), s.threads)
  }

  ghost predicate BytesOk(s: State) {
    && (forall t :: 0 <= t < |s.threads| ==> !Clears(s.threads[t]))
    && s.bytes == Bytes(s) % WORD
  }

  lemma WeightAfterPut(idle: Sizes, size: BufferSize, n: nat)
    ensures Weight(idle.Put(size, n)) == Weight(idle) + (n - idle.At(size)) * Capacity(size)
  {
  }

  lemma KeepsBytes(s: State, t: nat)
    requires BytesOk(s) && Enabled(s, t)
    ensures BytesOk(Exec(s, t))
  {
    hide Sum, Weight;
    OnlyMoverMoves(s, t);
    var pc, pc' := s.threads[t], Exec(s, t).threads[t];
    SumUpdate(BytesUp(), s.threads, t, pc');
    SumUpdate(BytesDown(), s.threads, t, pc');
    MoveWeighs(s, t);
    AddThenReduce(Bytes(s), BytesGain(pc));
  }

  /** What a step of a get or a return adds to the counter of bytes. */
  ghost function BytesGain(pc: Pc): int {
    if pc.PoppedCounted? then 0 - Capacity(pc.size) else if pc.StoredCounted? then Capacity(pc.size) else 0
  }

  /** What a step does to the bytes of idle buffers, to its debts and to the counter balances. */
  lemma MoveWeighs(s: State, t: nat)
    requires Enabled(s, t) && !Clears(s.threads[t])
    ensures var s', pc, pc' := Exec(s, t), s.threads[t], Exec(s, t).threads[t];
      && !Clears(pc')
      && Weight(s'.idle) - BytesUp()(pc') + BytesUp()(pc) + BytesDown()(pc') - BytesDown()(pc)
         == Weight(s.idle) + BytesGain(pc)
      && (if BytesGain(pc) == 0 then s'.bytes == s.bytes else s'.bytes == (s.bytes + BytesGain(pc)) % WORD)
  {
    hide Weight;
    var pc := s.threads[t];
    if pc.Unstarted? && pc.call.GetBuffer? && s.idle.At(pc.call.size) > 0 {
      WeightAfterPut(s.idle, pc.call.size, s.idle.At(pc.call.size) - 1);
    } else if pc.Approved? {
      WeightAfterPut(s.idle, pc.size, s.idle.At(pc.size) + 1);
    } else {
    }
  }

  lemma {:induction false} StartBytes(calls: seq<Call>)
    ensures Sum(BytesUp(), Unstarteds(calls)) == 0 && Sum(BytesDown(), Unstarteds(calls)) == 0
  {
    if calls != [] {
      assert Unstarteds(calls)[1..] == Unstarteds(calls[1..]);
      StartBytes(calls[1..]);
    }
  }

  lemma RightWithoutClear(idle: Sizes, limits: Sizes, calls: seq<Call>, s: State)
    requires ClearCache !in calls && Reaches(Start(idle, limits, calls), s) && AtRest(s)
    ensures BytesRight(s)
  {
    hide Reaches, Exec, Weight, Capacity;
    StartBytes(calls);
    forall s, t | BytesOk(s) && Enabled(s, t)
      ensures BytesOk(Exec(s, t))
    {
      KeepsBytes(s, t);
    }
    InvariantOfReached(Start(idle, limits, calls), s, BytesOk);
    SumZero(BytesUp(), s.threads);
    SumZero(BytesDown(), s.threads);
  }

  // With calls that cannot disturb it, a clear is the only one that pops.

  /** The classes a clear has come past are empty. */
  ghost predicate Behind(idle: Sizes, pc: Pc) {
    match pc
    case Clearing(size) => (size.Small? || idle.small == 0) && (size.Large? ==> idle.medium == 0)
    case Cleared(size) => (size.Small? || idle.small == 0) && (size.Large? ==> idle.medium == 0)
    case Zeroing => idle == Sizes(0, 0, 0)
    case _ => true
  }

  ghost predicate Quiet(s: State, pc: Pc) {
    && (Clears(pc) || pc.Done? || (pc.Unstarted? && !Disturbs(s.idle, s.limits, pc.call)))
    && Behind(s.idle, pc)
  }

  ghost predicate QuietOk(s: State, k: nat) {
    && (forall t :: 0 <= t < |s.threads| ==> Quiet(s, s.threads[t]))
    && k < |s.threads|
    && (if s.threads[k].Done? then s.idle == Sizes(0, 0, 0) && s.bytes == 0 else Clears(s.threads[k]))
  }

  lemma OtherStaysQuiet(s: State, t: nat, other: Pc)
    requires Enabled(s, t) && Quiet(s, s.threads[t]) && Quiet(s, other)
    ensures Quiet(Exec(s, t), other)
  {
    var pc := s.threads[t];
    if pc.Clearing? {
    } else {
      assert Exec(s, t).idle == s.idle && Exec(s, t).limits == s.limits;
    }
  }

  lemma MoverStaysQuiet(s: State, t: nat)
    requires Enabled(s, t) && Quiet(s, s.threads[t])
    ensures Quiet(Exec(s, t), Exec(s, t).threads[t])
  {
    var pc := s.threads[t];
    if pc.Unstarted? {
    } else if pc.Clearing? {
    } else {
    }
  }

  lemma KeepsQuiet(s: State, t: nat, k: nat)
    requires QuietOk(s, k) && Enabled(s, t)
    ensures QuietOk(Exec(s, t), k)
  {
    var s' := Exec(s, t);
    OnlyMoverMoves(s, t);
    forall u | 0 <= u < |s'.threads|
      ensures Quiet(s', s'.threads[u])
    {
      if u == t {
        MoverStaysQuiet(s, t);
      } else {
        OtherStaysQuiet(s, t, s.threads[u]);
      }
    }
    ClearerStays(s, t, k);
  }

  lemma ClearerStays(s: State, t: nat, k: nat)
    requires QuietOk(s, k) && Enabled(s, t)
    ensures var s' := Exec(s, t);
      k < |s'.threads|
      && if s'.threads[k].Done? then s'.idle == Sizes(0, 0, 0) && s'.bytes == 0 else Clears(s'.threads[k])
  {
    assert Quiet(s, s.threads[t]);
    if s.threads[t].Zeroing? {
    } else if s.threads[t].Clearing? {
    } else {
      assert Exec(s, t).idle == s.idle && Exec(s, t).bytes == s.bytes;
    }
  }

  lemma RightUndisturbed(idle: Sizes, limits: Sizes, calls: seq<Call>, s: State)
    requires ClearCache in calls && !SomeDisturb(idle, limits, calls)
    requires Reaches(Start(idle, limits, calls), s) && AtRest(s)
    ensures BytesRight(s)
  {
    hide Reaches, Exec;
    var k :| 0 <= k < |calls| && calls[k] == ClearCache;
    var inv := (s: State) => QuietOk(s, k);
    forall s, t | inv(s) && Enabled(s, t)
      ensures inv(Exec(s, t))
    {
      KeepsQuiet(s, t, k);
    }
    InvariantOfReached(Start(idle, limits, calls), s, inv);
  }

  // The runs that leave the counter wrong.

  /** How far the counter is from the bytes of the idle buffers, while one call at `pc` is in progress. */
  ghost function Drift(s: State, pc: Pc): int {
    s.bytes - Weight(s.idle) + BytesUp()(pc) - BytesDown()(pc)
  }

  function Left(pc: Pc): nat {
    match pc
    case Unstarted(_) => 4
    case Approved(_) => 3
    case Popped(_) => 2
    case Stored(_) => 2
    case PoppedCounted(_) => 1
    case StoredCounted(_) => 1
    case _ => 0
  }

  lemma MoveKeepsDrift(s: State, t: nat)
    requires Enabled(s, t) && !Clears(s.threads[t])
    ensures var pc, pc' := s.threads[t], Exec(s, t).threads[t];
      && !Clears(pc') && Left(pc') < Left(pc)
      && Drift(Exec(s, t), pc') % WORD == Drift(s, pc) % WORD
  {
    hide Weight;
    MoveWeighs(s, t);
    var pc, pc', s' := s.threads[t], Exec(s, t).threads[t], Exec(s, t);
    var rest := 0 - Weight(s'.idle) + BytesUp()(pc') - BytesDown()(pc');
    AddThenReduce(s.bytes + BytesGain(pc), rest);
  }

  /** A get or a return runs to its end: it leaves the drift as it was. */
  lemma FinishPlain(start: State, s: State, t: nat) returns (s': State)
    requires Reaches(start, s) && t < |s.threads| && !Clears(s.threads[t])
    ensures Reaches(start, s') && s'.threads == s.threads[t := Done]
    ensures Drift(s', Done) % WORD == Drift(s, s.threads[t]) % WORD
    decreases Left(s.threads[t])
  {
    hide Drift, Reaches;
    if s.threads[t].Done? {
      s' := s;
    } else {
      OnlyMoverMoves(s, t);
      MoveKeepsDrift(s, t);
      Continue(start, s, t);
      s' := FinishPlain(start, Exec(s, t), t);
    }
  }

  ghost function LeftToClear(s: State, pc: Pc): nat {
    2 * (s.idle.small + s.idle.medium + s.idle.large)
    + match pc
      case Unstarted(_) => 6
      case Clearing(size) => if size.Small? then 4 else if size.Medium? then 3 else 2
      case Cleared(size) => if size.Small? then 5 else if size.Medium? then 4 else 3
      case _ => 0
  }

  lemma ClearComesOn(s: State, t: nat)
    requires Enabled(s, t) && Clears(s.threads[t]) && Behind(s.idle, s.threads[t]) && !s.threads[t].Zeroing?
    ensures var s' := Exec(s, t);
      && Clears(s'.threads[t]) && Behind(s'.idle, s'.threads[t])
      && LeftToClear(s', s'.threads[t]) < LeftToClear(s, s.threads[t])
  {
    if s.threads[t].Clearing? {
    } else {
      assert Exec(s, t).idle == s.idle;
    }
  }

  /** A clear runs until it is about to store its zero: the pool is empty. */
  lemma ClearToZero(start: State, s: State, t: nat) returns (s': State)
    requires Reaches(start, s) && t < |s.threads| && Clears(s.threads[t]) && Behind(s.idle, s.threads[t])
    ensures Reaches(start, s') && s'.threads == s.threads[t := Zeroing] && s'.idle == Sizes(0, 0, 0)
    decreases LeftToClear(s, s.threads[t])
  {
    hide Reaches;
    if s.threads[t].Zeroing? {
      s' := s;
    } else {
      OnlyMoverMoves(s, t);
      ClearComesOn(s, t);
      Continue(start, s, t);
      s' := ClearToZero(start, Exec(s, t), t);
    }
  }

  /** A clear runs to its end and leaves no drift. */
  lemma FinishClear(start: State, s: State, t: nat) returns (s': State)
    requires Reaches(start, s) && t < |s.threads| && s.threads[t] == Unstarted(ClearCache)
    ensures Reaches(start, s') && s'.threads == s.threads[t := Done] && Drift(s', Done) == 0
  {
    hide Reaches, Exec, Drift, Behind, Clears, LeftToClear;
    StartsBehind(s.idle);
    var zeroing := ClearToZero(start, s, t);
    Continue(start, zeroing, t);
    s' := Exec(zeroing, t);
    StoresZero(zeroing, t);
  }

  lemma StartsBehind(idle: Sizes)
    ensures Behind(idle, Unstarted(ClearCache)) && Clears(Unstarted(ClearCache))
  {
  }

  lemma StoresZero(s: State, t: nat)
    requires Enabled(s, t) && s.threads[t].Zeroing? && s.idle == Sizes(0, 0, 0)
    ensures Exec(s, t).threads == s.threads[t := Done] && Drift(Exec(s, t), Done) == 0
  {
    hide Drift;
    EmptyHasNoDrift(Exec(s, t));
  }

  lemma EmptyHasNoDrift(s: State)
    requires s.idle == Sizes(0, 0, 0) && s.bytes == 0
    ensures Drift(s, Done) == 0
  {
    hide Weight, Capacity;
    NothingWeighs();
  }

  lemma NothingWeighs()
    ensures Weight(Sizes(0, 0, 0)) == 0
  {
  }

  /** A call that has not started runs to its end; a clear among them leaves no drift. */
  lemma Finish(start: State, s: State, t: nat) returns (s': State)
    requires Reaches(start, s) && t < |s.threads| && s.threads[t].Unstarted?
    ensures Reaches(start, s') && s'.threads == s.threads[t := Done]
    ensures Drift(s', Done) % WORD == (if s.threads[t].call.ClearCache? then 0 else Drift(s, Done)) % WORD
  {
    hide Reaches;
    if s.threads[t].call.ClearCache? {
      s' := FinishClear(start, s, t);
    } else {
      s' := FinishPlain(start, s, t);
    }
  }

  /** The threads when all calls but the kept ones have run among the first `count`. */
  ghost function RanBut(calls: seq<Call>, kept: set<nat>, pc: Pc, count: nat): seq<Pc> {
    seq(|calls|, c requires 0 <= c < |calls| =>
      if c in kept then (if pc.Done? then Unstarted(calls[c]) else pc)
      else if c < count then Done
      else Unstarted(calls[c]))
  }

  /** All calls but the kept ones run one after the other. If one is a clear, no drift is left. */
  lemma FinishOthers(start: State, calls: seq<Call>, s: State, kept: set<nat>, pc: Pc) returns (s': State)
    requires Reaches(start, s) && s.threads == RanBut(calls, kept, pc, 0)
    ensures Reaches(start, s') && s'.threads == RanBut(calls, kept, pc, |calls|)
    ensures (exists k :: 0 <= k < |calls| && k !in kept && calls[k] == ClearCache) ==> Drift(s', Done) % WORD == 0
  {
    hide Drift, Reaches;
    s' := s;
    for c := 0 to |calls|
      invariant Reaches(start, s') && s'.threads == RanBut(calls, kept, pc, c)
      invariant (exists k :: 0 <= k < c && k !in kept && calls[k] == ClearCache) ==> Drift(s', Done) % WORD == 0
    {
      if c !in kept {
        s' := Finish(start, s', c);
        assert RanBut(calls, kept, pc, c + 1) == RanBut(calls, kept, pc, c)[c := Done];
      } else {
        assert RanBut(calls, kept, pc, c + 1) == RanBut(calls, kept, pc, c);
      }
    }
  }

  /** A get takes a buffer, all other calls and among them a clear run, and the get subtracts it from the zero. */
  lemma GetDuringClear(idle: Sizes, limits: Sizes, calls: seq<Call>, i: nat) returns (s: State)
    requires i < |calls| && calls[i].GetBuffer? && Disturbs(idle, limits, calls[i]) && ClearCache in calls
    ensures Reaches(Start(idle, limits, calls), s) && AtRest(s) && !BytesRight(s)
  {
    hide Reaches;
    var start, size := Start(idle, limits, calls), calls[i].size;
    var k :| 0 <= k < |calls| && calls[k] == ClearCache;
    assert k !in {i};
    Begin(start);
    Continue(start, start, i);
    assert Exec(start, i).threads == RanBut(calls, {i}, Popped(size), 0);
    var ran := FinishOthers(start, calls, Exec(start, i), {i}, Popped(size));
    s := FinishPlain(start, ran, i);
    DriftsApart(Drift(ran, Done), Capacity(size), s);
  }

  /** A counter that has drifted by one buffer is wrong. */
  lemma DriftsApart(drift: int, capacity: nat, s: State)
    requires drift % WORD == 0 && 0 < capacity < WORD
    requires Drift(s, Done) % WORD == (drift - capacity) % WORD
    ensures !BytesRight(s)
  {
  }

  lemma CountInRun(idle: Sizes, limits: Sizes, calls: seq<Call>, s: State, size: BufferSize)
    requires Reaches(Start(idle, limits, calls), s)
    ensures CountOk(s, size) && s.limits == limits
  {
    hide Reaches, Exec;
    var inv := (s: State) => CountOk(s, size) && s.limits == limits;
    StartSums(calls, size);
    forall s, t | inv(s) && Enabled(s, t)
      ensures inv(Exec(s, t))
    {
      KeepsCount(s, t, size);
      OnlyMoverMoves(s, t);
    }
    InvariantOfReached(Start(idle, limits, calls), s, inv);
  }

  /** The counter of an empty class is 0 if no call in progress owes it an update. */
  lemma NothingCounted(s: State, size: BufferSize)
    requires CountOk(s, size) && s.idle.At(size) == 0
    requires forall t :: 0 <= t < |s.threads| ==> s.threads[t].Done? || s.threads[t].Unstarted? || s.threads[t].Zeroing?
    ensures s.cached.At(size) == 0
  {
    SumZero(OwesUp(size), s.threads);
    SumZero(OwesDown(size), s.threads);
  }

  /** A return below the limit runs to its end and leaves one idle buffer more. */
  lemma FinishReturn(start: State, s: State, t: nat, size: BufferSize) returns (s': State)
    requires Reaches(start, s) && t < |s.threads| && s.threads[t] == Unstarted(ReturnBuffer(size))
    requires s.cached.At(size) < s.limits.At(size)
    ensures Reaches(start, s')
    ensures s'.threads == s.threads[t := Done] && s'.idle == s.idle.Put(size, s.idle.At(size) + 1)
  {
    hide Reaches, Sizes.At, Sizes.Put;
    Continue(start, s, t);
    s' := Exec(s, t);
    Continue(start, s', t);
    s' := Exec(s', t);
    Continue(start, s', t);
    s' := Exec(s', t);
    Continue(start, s', t);
    s' := Exec(s', t);
  }

  /** A clear empties the pool, a return is kept, and then the clear stores its zero. */
  lemma ReturnDuringClear(idle: Sizes, limits: Sizes, calls: seq<Call>, i: nat) returns (s: State)
    requires i < |calls| && calls[i].ReturnBuffer? && Disturbs(idle, limits, calls[i]) && ClearCache in calls
    ensures Reaches(Start(idle, limits, calls), s) && AtRest(s) && !BytesRight(s)
  {
    hide Reaches, CountOk, Weight;
    var start, size := Start(idle, limits, calls), calls[i].size;
    var k: nat :| k < |calls| && calls[k] == ClearCache;
    Begin(start);
    assert start.threads == RanBut(calls, {i, k}, Done, 0);
    s := FinishOthers(start, calls, start, {i, k}, Done);
    s := ClearToZero(start, s, k);
    CountInRun(idle, limits, calls, s, size);
    NothingCounted(s, size);
    s := FinishReturn(start, s, i, size);
    Continue(start, s, k);
    s := Exec(s, k);
    OneBufferWeighs(size);
  }

  lemma OneBufferWeighs(size: BufferSize)
    ensures 0 < Weight(Sizes(0, 0, 0).Put(size, 1)) < WORD
  {
  }

  /**
  The counter of cached bytes survives every run of the calls exactly if they do not combine a clear with a return
  that can be kept or a get that can find a buffer.
  */
  lemma BytesStayRightExactlyWhen(idle: Sizes, limits: Sizes, calls: seq<Call>)
    ensures BytesStayRight(idle, limits, calls) <==> !(ClearCache in calls && SomeDisturb(idle, limits, calls))
  {
    hide Reaches, BytesRight, AtRest;
    if ClearCache in calls && SomeDisturb(idle, limits, calls) {
      var i :| 0 <= i < |calls| && Disturbs(idle, limits, calls[i]);
      if calls[i].GetBuffer? {
        var s := GetDuringClear(idle, limits, calls, i);
      } else {
        var s := ReturnDuringClear(idle, limits, calls, i);
      }
    } else {
      forall s | Reaches(Start(idle, limits, calls), s) && AtRest(s)
        ensures BytesRight(s)
      {
        if ClearCache in calls {
          RightUndisturbed(idle, limits, calls, s);
        } else {
          RightWithoutClear(idle, limits, calls, s);
        }
      }
    }
  }
}
